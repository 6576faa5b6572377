# The jobs domain of the ONGO backend, verified

This project models the transactions behind ONGO's roadside jobs and proves what
they promise together: `src/services/jobs.service.ts` with the points wallet of
`src/services/points.service.ts`, then the refresh-token families, the account
lockout and token cut-off, job chat, platform revenue, and the escaping of search
terms. `dafny verify dfyconfig.toml` checks all of it.

## How the model is laid out

| file | what it holds |
|---|---|
| `Common.dfy` | options, outcomes, the error codes, two facts about division |
| `Jobs.dfy` | the tables and each service function as one atomic step |
| `JobsInvariant.dfy` | the invariant every step keeps, action by action |
| `JobsRuns.dfy` | what holds over whole runs: the ETA guarantee, one winner, settlement, no dead end |
| `JobsAnswers.dfy` | exactly who may do what, and what everybody else is told |
| `JobsWrites.dfy` | each column of the tables: every call that writes it and the value it leaves |
| `JobsRecords.dfy` | what rows tell of the calls behind them, over runs |
| `Points.dfy` | conservation of points, the wallet, awards at the policy in force |
| `Sweeping.dfy` | the expiry loop against an order-free description of a sweep |
| `JobsService.dfy` | the service functions as they run, statement by statement, on mutable tables |
| `Interleaving.dfy` | concurrent transactions: program counters, row locks, uncommitted writes |
| `Isolation.dfy` | what a transaction may rely on while others commit |
| `Serialisable.dfy` | every commit is one atomic step |
| `History.dfy` | the one run an interleaving follows, what its payments had read and what its sweeps release |
| `Alone.dfy` | a split transaction left alone is its atomic step, with the same answer |
| `Deadlock.dfy` | the global lock order, and that unique violations cannot happen |
| `Sessions.dfy` | refresh-token families |
| `Accounts.dfy` | the access-token cut-off and the lockout |
| `Chat.dfy`, `ChatAnswers.dfy`, `ChatPaging.dfy`, `ChatRuns.dfy` | conversations: who is answered and what is stored, paging, read markers and unread counts |
| `Revenue.dfy`, `RevenueSummary.dfy` | reported payments and the monthly summary |
| `Like.dfy` | `escapeLike` against LIKE |

**Two levels.** In `Jobs.dfy` a service function is a function from tables to an
`Outcome<Db>`: the new tables, or the error code, in which case the transaction
rolled back. `now()` is a parameter of every step, so a run may use any times in
any order unless a theorem says otherwise. `JobsService.dfy` has the same
operations as methods that update fields one statement at a time; each is proved
to carry out its step, rollback included. They are links between the two forms;
the table below lists only those whose statements do something their step does
not show.

`Interleaving.dfy` splits accepting, accepting an Emergency, paying, converting
and sweeping into their statements, with row locks, reads of committed rows under
a transaction's own writes, commit and rollback; every commit is shown to be
exactly one step of `Jobs.dfy`. The committed steps of an interleaving form one
run (`InterleavingIsARun`) that passes through its committed tables in order
(`RunPassesThrough`), so what is proved of two moments of a run holds of two
moments of an interleaving, as `SettlementIsFinalUnderInterleaving` shows.

**The tables as the reference.** The steps of `Jobs.dfy` follow the code branch by
branch. `JobsAnswers.dfy` and `JobsWrites.dfy` say the same calls over again from
the other side, in reachable states and with figures written out: the conditions
under which a call succeeds, in terms of what the invariants make of the tables;
the one answer of a refused caller; and, column by column, who writes it and what.
`JobsRecords.dfy` turns this round: a row of any run is traced back to the calls
that made it. The sessions, accounts, chat and revenue files do the same for their
calls.

**What a payment reads.** A payment step carries the rates it uses. Taken alone
it reads the policy of the moment (`AwardsAtPolicy`); beside other transactions
it reads the policy row without a lock, and `History.dfy` proves that
the rates of every committed payment were the committed policy at some moment
while it was under way, and that a fee asked in points was taken in pesos only if
the committed balance was short at such a moment.

**Units.** Money and points are integers in hundredths; the mechanic's rate is an
integer in ten-thousandths per peso; times are milliseconds. A progress flag and
its timestamp, which the code always writes together, are one optional time. A
quote is keyed by (request, mechanic), which is unique in the table.

**Conversations.** The comment of `chat.service.ts` speaks of one conversation per
match. The model keys it as the code does, by job and mechanic, so a mechanic
matched again to a job returns to the same conversation; every chat property is
stated for that pair.

**Assumptions, stated where they are used.** Request ids, message ids and family
ids are random: a new one is not in use (for revenue, a new job's id is not one a
device already reported). Tokens and hashes are injective. Sessions, accounts,
chat and revenue run as atomic steps on one non-decreasing clock.

## Where the code and its own words differ

* The comment of `updatePassword` says a password change retires every access
  token issued before it. Two changes whose times round up to the same second
  break this for the token of the first. `CutOffExactly` gives the exact
  condition; `SameSecondChangeKeepsOldToken` is a concrete run.
* `reportCompletedPayment` is documented as booking a job id once. It compares the
  id as text, so another spelling of the same UUID is booked again, as the run of
  `TwoSpellingsBookTwice` shows. `JobBookedOnceExactly` gives the exact condition
  over runs; each text is booked once.
* It is documented as booking nothing for a job the server holds. The test for a
  held job is made only when the id matches the code's pattern, so a held job
  reported without hyphens is booked as well: `HeldJobBookedAnyway`, with the
  exact condition in `HeldJobBookedExactly`.
* Older pages of a chat are undisturbed by later messages only as long as none of
  them carries the same instant as the cursor's message and a smaller id:
  `OlderPartChangesOnlyByTies` says so exactly, and `TieChangesPage` is a run in
  which such a message changes the page asked for. No message is lost or repeated
  by it (`PagingIsComplete`); it is only paged in between older ones, as in
  `TieIsPagedIn`. `PagesAreTheThreadIffUntied` is the exact condition.
* The partial unique indexes are described as what turns a racing second pay into
  a rollback. With the request row locked that branch is unreachable, at both
  levels: `PaySettles`, `NoUniqueViolation`.

## Model

| member | source | states |
|---|---|---|
| JobsService.Store.AcceptQuote | src/services/jobs.service.ts:588-634 | the row is matched with its clock and deadline, and exactly the chosen quote of the request is accepted; any refusal changes nothing |
| JobsService.Store.AcceptEmergency | src/services/jobs.service.ts:639-706 | one active Emergency per mechanic; the accept record is inserted, or revived keeping its price |
| JobsService.Store.PayForJob | src/services/jobs.service.ts:827-958 | the whole settlement is written or, on any failure between its statements, nothing is |
| JobsService.Store.WriteSettlement | src/services/jobs.service.ts:878-935 | the five statements succeed together exactly when no unique index is hit, and then add up to one settlement |
| JobsService.Store.MayLeaveMatch | src/services/jobs.service.ts:990-1006 | the ETA lock: accept time plus the accepted quote's minutes, read off the two rows, against the progress flags |
| JobsService.Store.ReleaseRows | src/services/jobs.service.ts:1154-1161 | the loop over locked rows equals one release of the whole set, for any order of the rows |
| JobsService.Store.ExpireOverdueJobs | src/services/jobs.service.ts:1134-1168 | releases exactly the due jobs and returns how many there were, fast path included |
| JobsInvariant.InvKept | src/services/jobs.service.ts:220-1168 | every action at any time keeps the invariant: rows, quotes, payments, ledger and approvals in step, and no balance below zero |
| JobsInvariant.InvInitially | migrations/006_service_requests.sql:36-38 | the empty database satisfies it |
| JobsInvariant.UnpaidNeverCollides | migrations/010_payments_points.sql:63-65 | an unpaid job has no payment and no ledger row that its settlement could collide with |
| JobsInvariant.PaySettles | src/services/jobs.service.ts:937-947 | a payment that passes its checks always settles, so the unique-violation branch is unreachable |
| JobsInvariant.SettlementSum | src/services/jobs.service.ts:878-935 | the ledger rows of a settlement carry exactly what its payment records, for one user or for all |
| JobsInvariant.SettledNoOverdraft | src/services/jobs.service.ts:878-896 | taking the fee in points before crediting the awards never overdraws |
| JobsInvariant.ApprovalForever | src/services/verification.service.ts:342-357 | no action takes an approval away |
| JobsRuns.ReachableInv | src/services/jobs.service.ts:220-1168 | the invariant holds in every state reachable from the empty database |
| JobsRuns.MatchQuoteCoupling | src/services/jobs.service.ts:614-623 | a job has a mechanic exactly when one of its quotes is accepted, which is that mechanic's and live; pending jobs are as clean as new; an Emergency's other quotes are withdrawn |
| JobsRuns.MatchIsBacked | src/services/jobs.service.ts:993-1000 | the ETA-lock query always finds its row, and the quote's ETA fits the urgency's window |
| JobsRuns.OtherJobsUntouched | src/services/jobs.service.ts:1023-1042 | a call on one job leaves the row and quotes of every other job as they were |
| JobsRuns.MatchEndsExactly | src/services/jobs.service.ts:990-1006 | a match ends on exactly the listed calls, each of which succeeds; every other call leaves mechanic, clock and accepted quote alone |
| JobsRuns.ArrivalBeforeDeadline | src/services/jobs.service.ts:463-466 | the accept time plus the quoted minutes never falls after the completion deadline |
| JobsRuns.EtaGuarantee | src/services/jobs.service.ts:990-1006 | until the accept time plus the quoted minutes, and before arrival, no client call and no sweep ends the match, and once the mechanic is committed nothing does |
| JobsRuns.EtaGuaranteeOverRuns | src/services/jobs.service.ts:1110-1117 | over any run a committed match stands up to the accept time plus the quoted minutes unless the mechanic arrives first |
| JobsRuns.OneWinner | src/services/jobs.service.ts:595-624 | successful accepts less returns to the pool are 1 while a job has a mechanic and 0 otherwise |
| JobsRuns.RunRow | src/services/jobs.service.ts:722-757 | client, urgency and fee never change, a closed row never changes, and after work starts the match is fixed |
| JobsRuns.PointOfNoReturn | src/services/jobs.service.ts:990-992 | once work has started the parties and timestamps are fixed for the rest of every run and the job can only complete |
| JobsRuns.RejectedForever | src/services/jobs.service.ts:560-567 | a rejection once on a quote stays and the quote is never accepted in any later state |
| JobsRuns.ApprovedForever | src/services/jobs.service.ts:448-450 | the approval test made outside the transaction cannot go stale |
| JobsRuns.CompletedIffPaidOnce | migrations/010_payments_points.sql:32-34 | in every reachable state a job is completed exactly when it has a payment, and it has at most one |
| JobsRuns.SettlementIsFinal | src/services/jobs.service.ts:854-857 | after payment the row, the payment and the amount owed are the same in every later state |
| JobsRuns.OwedFrom | src/services/jobs.service.ts:859-870 | accepting a quote makes the job owe its price, an Emergency the last agreed amount |
| JobsRuns.PaidWhatWasOwed | src/services/jobs.service.ts:859-876 | the payment is of the amount owed when the job was matched, unless the mechanic agreed another or it went back to the pool |
| JobsRuns.PaidThePriceAccepted | src/services/jobs.service.ts:862-868 | a quoted job is paid the price its quote had at the moment it was accepted, unless it went back to the pool |
| JobsRuns.PaidTheAmountAgreed | src/services/jobs.service.ts:860-861 | an Emergency is paid the amount last agreed, unless it went back to the pool |
| JobsRuns.QuotedPaymentHasItsAccept | src/services/jobs.service.ts:862-868 | every payment of a quoted job in a run from the empty database has a successful accept of a quote of that price behind it, with no return to the pool since |
| JobsRuns.EmergencyPaymentHasItsAgreement | src/services/jobs.service.ts:860-861 | every payment of an Emergency has its last agreement behind it, of that amount, with no return to the pool since |
| JobsRuns.MatchedJobCanFinish | src/services/jobs.service.ts:715-757 | from every reachable matched job a plan of at most five permitted calls completes it, paying at the policy in force |
| JobsRuns.PendingJobCanFinish | src/services/jobs.service.ts:441-706 | every reachable pending job can be completed by any approved mechanic free to take it, whatever its past |
| JobsRuns.FirstJobCanBePaid | src/services/jobs.service.ts:220-958 | from an empty database permitted calls approve a mechanic and book a job of any urgency, and further permitted calls match, finish and pay it |
| JobsRuns.PendingJobCanClose | src/services/jobs.service.ts:338-350 | a pending job can always be cancelled, so no open job is stuck |
| JobsAnswers.SucceedsExactly | src/services/jobs.service.ts:220-1168 | in every reachable state each of the 17 calls succeeds exactly under its condition on the tables, windows of 4320 and 720 minutes written out |
| JobsAnswers.ClientLeavesExactly | src/services/jobs.service.ts:990-1006 | the client of a matched job may cancel or reopen it exactly when work has not started and the mechanic has arrived or the accept time plus the quoted minutes has passed |
| JobsAnswers.RefusedExactly | src/services/jobs.service.ts:220-1168 | what each refused caller is told: first entitlement, then form, then sight, and conflict only to those past all three; the unexpected branches never answer |
| JobsWrites.RowsWritten | src/services/jobs.service.ts:220-1168 | every column of every request row after every call: parties and clock, status, first time of each progress step, agreed amount, and the stamps of a cancel, a backing out or a lapse |
| JobsWrites.RowsAppear | src/services/jobs.service.ts:220-238 | a row appears only by booking, pending and empty, with a fee of 0, 50 or 100 pesos |
| JobsWrites.QuotesWritten | src/services/jobs.service.ts:441-706 | every column of every quote after every call: price and minutes by offers alone, and who accepts, withdraws and rejects it |
| JobsWrites.AccountsWritten | src/services/verification.service.ts:342-357 | a verification row appears when asked for and takes the verdict a permitted decision gives it |
| JobsWrites.PolicyWritten | src/services/points.service.ts:34-60 | the policy in force is the one last set |
| JobsRecords.RejectionHolds | src/services/jobs.service.ts:552-575 | over every run a successful reject leaves its time on the quote for ever, no accept of it succeeds and its mechanic never offers on that job again |
| JobsRecords.OffUntilOffered | src/services/jobs.service.ts:1093-1121 | over every run a quote its mechanic withdrew, or backed out of, stays off the table and no accept of it succeeds until they quote afresh |
| JobsRecords.ReturnKeepsTheOffer | src/services/jobs.service.ts:1063-1091 | after a reopen or a lapse of a Normal or Urgent job the client may accept the same quote again |
| JobsRecords.MatchTellsItsAccept | src/services/jobs.service.ts:612-624 | every matched or completed job of a run has one accept behind it that gave it its mechanic, clock, deadline and promised minutes, with no return to the pool since |
| JobsRecords.QuoteTellsItsOffer | src/services/jobs.service.ts:478-496 | every quote of a run carries the price and minutes its mechanic last offered, and the record of an Emergency no price |
| JobsRecords.ProgressTellsItsCalls | src/services/jobs.service.ts:709-757 | the time of each progress step is that of the first call that marked it since the job was taken, arrival marking en route as well; a step no call marked is open |
| JobsRecords.VerdictStands | src/services/verification.service.ts:345 | over every run a decided request keeps its verdict |
| JobsRecords.StatusTellsItsVerdict | src/services/verification.service.ts:342-357 | over every run a request is approved, rejected or escalated exactly when a permitted decision said so |
| Points.PointsConserved | src/services/points.service.ts:76-78 | over every run with any changes of policy: points held, for one user or for all, are awards less fees paid in points less conversions |
| Points.WalletAddsUp | src/services/points.service.ts:105-118 | no balance is negative, and balance plus converted pesos is exactly what the user's jobs awarded as a mechanic, plus their net as a client (nothing for a mechanic) |
| Points.WalletMoves | src/services/points.service.ts:105-118 | a settlement moves a wallet by the payout of its mechanic and the points of its two parties, and no other wallet |
| Points.MoneyWritten | src/services/jobs.service.ts:859-935 | a call adds one payment, whose every column is fixed by the job, the balance and the rates, with exactly its ledger rows; or one conversion; or no money moves |
| Points.ConversionExact | src/services/points.service.ts:156-177 | a conversion takes exactly the points asked for, gives as many pesos, and moves nobody else's money |
| Points.AwardRounding | src/services/jobs.service.ts:908-909 | the award formula: within half a hundredth of amount times rate, an exact half rounded up; `AwardsAtPolicy` ties it to payments |
| Points.EveryPaymentSettled | src/services/jobs.service.ts:878-923 | every payment of a run was written by one settlement step of an unpaid job, which changed the tables by exactly that settlement |
| Points.AwardsAtPolicy | src/services/jobs.service.ts:898-913 | in every run whose payments read the policy in force, every payment carries that policy's rate for its job's urgency, and for the mechanic amount times rate rounded half up |
| Sweeping.ReleaseOneMore | src/services/jobs.service.ts:1154-1161 | releasing one more row of any due set equals releasing the larger set: order does not matter |
| Sweeping.NothingDueNothingDone | src/services/jobs.service.ts:1135-1141 | the EXISTS fast path agrees with running the loop |
| Sweeping.SweepSettles | src/services/jobs.service.ts:1128-1133 | nothing is due after a sweep, and a second one changes nothing |
| Sweeping.AnyOrderSweeps | src/services/jobs.service.ts:1144-1162 | releasing the due rows one by one gives the sweep whatever order they come in |
| Sweeping.SweepExactly | src/services/jobs.service.ts:1015-1043 | each due job takes the clean pending form with expiry stamps, the released mechanic's accept record of an Emergency is withdrawn if it was live and no other quote is, every other job is untouched |
| Sweeping.SweepIsAStep | src/services/jobs.service.ts:1143-1163 | a sweep is the release step taken on the due set, and releasing any set that holds the due set does the same |
| Isolation.StatementOk | src/services/jobs.service.ts:595-935 | each statement keeps what its transaction knows of the rows it locked |
| Isolation.Stable | src/services/jobs.service.ts:836-935 | what a transaction knows survives every commit that keeps the rows it locked, reads the fee check and the agreed amount included |
| Isolation.CommitKeeps | src/services/points.service.ts:161-175 | a commit under other locks keeps the rows behind each lock, and a balance may only have grown |
| Serialisable.CommitIsStep | src/services/jobs.service.ts:836-935 | what a transaction commits is exactly the atomic step of its action at the moment of commit, with what it had read; `History.EveryPaymentFair` says where a payment's rates and fee decision came from, `History.SweepFreesExactly` which jobs a sweep's step holds |
| Serialisable.EveryMoveIsAtomic | src/services/jobs.service.ts:595-624 | each move of an interleaving takes one atomic step on the committed tables or none |
| Serialisable.OneWinnerUnderInterleaving | src/services/jobs.service.ts:656-691 | over every interleaving, committed accepts less committed returns are 1 while the job has a mechanic and 0 otherwise |
| Serialisable.InterleavingsAreSerialisable | src/services/jobs.service.ts:1144-1160 | every committed state of every interleaving is reachable by atomic steps, so every invariant of runs holds in it; `History.InterleavingIsARun` gives the one run |
| Serialisable.NoOverdraftUnderInterleaving | src/services/points.service.ts:161-175 | no interleaving of payments, conversions and credits takes a committed balance below zero |
| Alone.AloneIsItsStep | src/services/jobs.service.ts:588-947 | each split transaction that nobody disturbs gives the answer and the tables of its atomic step, refusals and a job paid already included |
| History.InterleavingIsARun | src/services/jobs.service.ts:595-935 | the committed steps of any interleaving, in order, form one run of atomic steps from the empty database to the committed tables |
| History.RunPassesThrough | src/services/jobs.service.ts:595-935 | that run passes through the committed tables of every moment of the interleaving, in order |
| History.SettlementIsFinalUnderInterleaving | src/services/jobs.service.ts:854-857 | over every interleaving a payment, once committed, and the row it paid stay as they are, and no second payment of the job ever commits |
| History.PointOfNoReturnUnderInterleaving | src/services/jobs.service.ts:990-992 | over every interleaving the parties of a job whose work has started are fixed and it can only complete |
| History.RatesWereInForce | src/services/jobs.service.ts:898-913 | the rates a payment writes were the committed policy at some moment while that transaction was under way |
| History.PesosOnlyWhenShort | src/services/jobs.service.ts:880-896 | a fee asked in points is taken in pesos only if the client's committed balance was below it at some moment while the payment was under way |
| History.EveryPaymentFair | src/services/jobs.service.ts:836-935 | every payment of every interleaving was committed by one transaction as exactly its settlement, with awards of a policy in force while it ran, and its fee in points only if the balance at the commit covers it |
| History.SweepFreesExactly | src/services/jobs.service.ts:1143-1163 | over every interleaving a sweep commits exactly the jobs that were due when it selected its candidates and are still due as it commits |
| History.SweepLeavesNothingDue | src/services/jobs.service.ts:1143-1152 | over every interleaving, no job due when a sweep selected its candidates is still due, at the sweep's time, once it has committed |
| Deadlock.NoWaitCycle | src/services/jobs.service.ts:1144-1152 | no reachable chain of waiting transactions closes on itself |
| Deadlock.SomeoneCanMove | src/services/jobs.service.ts:1144-1152 | whenever transactions are under way one of them is not blocked |
| Deadlock.NoUniqueViolation | src/services/jobs.service.ts:937-947 | with its locks held no statement of any interleaving hits a unique index of payments or the ledger |
| Sessions.SessionStore.CreateSession | src/auth/sessions.ts:58-76 | the first row of a family, bounded by both clocks |
| Sessions.SessionStore.RotateSession | src/auth/sessions.ts:78-172 | each outcome of a refresh with exactly the rows it leaves; a revocation commits although the call fails |
| Sessions.FamiliesAreChains | src/auth/sessions.ts:137-157 | in every state the rows of a family form one replaced_by chain of distinct tokens with one user and one ceiling, all but the last rotated |
| Sessions.OneLiveToken | src/auth/sessions.ts:137-151 | at most one token of a family is live |
| Sessions.RotatesOnce | src/auth/sessions.ts:112-134 | each refresh token rotates at most once in a run |
| Sessions.ReplayKillsFamily | src/auth/sessions.ts:114-127 | presenting a token at any time after it was rotated leaves the family dead, and the guard's session check false, in every later state |
| Sessions.SignedOutElsewhere | src/auth/sessions.ts:197-209 | signing out everywhere but one family leaves every other family of the user dead in every later state |
| Sessions.RefreshAnswersExactly | src/auth/sessions.ts:99-157 | in every state of a run: replaced tokens are replays, live ones in time rotate to the lesser of idle and ceiling, live ones past their time have expired, tokens ended otherwise are unknown |
| Sessions.SessionsWritten | src/auth/sessions.ts:58-209 | every row after every call: which live rows it ends, when, with which reason, and that all others stay as they are |
| Sessions.RowTellsItsIssue | src/auth/sessions.ts:53-76 | every row of a run has the sign-in or rotation behind it whose time set its idle expiry under the family's ceiling |
| Sessions.SessionActiveExactly | src/auth/guard.ts:61-70 | the guard's check of a family with a live token passes exactly for its user and before its idle expiry |
| Sessions.NoRotationPastCeiling | src/auth/sessions.ts:53-63 | no token of a family rotates at or after sign-in plus the absolute lifetime |
| Accounts.UserRow.SignInAttempt | src/services/auth.service.ts:129-206 | lock, password, admission in that order, with the counter and lock each leaves |
| Accounts.UserRow.ReplacePassword | src/services/auth.service.ts:363-413 | the cut-off moves only on a real change, and the answer carries its own new token |
| Accounts.UserRow.IssueToken | src/auth/tokens.ts:67-69 | `iat` is the clock's second, never before the account's cut-off |
| Accounts.LockShutsOut | src/services/auth.service.ts:129-139 | over every run, while a lock stands no password signs in, the right one included, and nothing is counted |
| Accounts.UnlockedSignIn | src/services/auth.service.ts:141-206 | over every run, with no lock standing: the right password of an admitted account signs in and clears counter and lock, a wrong one counts and from the limit on locks for the whole lockout |
| Accounts.SignInAnswers | src/services/auth.service.ts:129-206 | the answer of a sign-in: locked before wrong password before not admitted |
| Accounts.PasswordIs | src/services/auth.service.ts:363-413 | over every run the password is the one last set by a change that gave the current one or by a reset, and which calls mint a token |
| Accounts.OtherCallsLeave | src/services/auth.service.ts:363-543 | a change or reset moves the cut-off a second ahead and touches neither counter nor lock |
| Accounts.IatIs | src/auth/tokens.ts:67-69 | `iat` is the first whole second that is neither before the cut-off nor before the clock's own |
| Accounts.PassesIs | src/auth/guard.ts:47-56 | the guard lets a token pass exactly when its second is not before the cut-off |
| Accounts.CutOffExactly | src/auth/guard.ts:54-56 | a token passes the cut-off exactly while the last password change is the one it was minted under or rounds up to the same second |
| Accounts.SpacedChangesRetireExactly | src/auth/users.ts:124-138 | with changes a second apart, exactly the tokens minted since the last change pass, the replacement token included |
| Accounts.SameSecondChangeKeepsOldToken | src/auth/users.ts:139-153 | two changes within one second let the first one's token survive |
| Accounts.LockoutRate | src/auth/users.ts:94-113 | without a successful sign-in, wrong passwords evaluated in any stretch L number at most max + floor(L / lockout) |
| Accounts.LockoutRateIsReached | src/auth/users.ts:85-87 | that bound is met for every limit and every number of lockouts |
| Chat.ChatStore.SendChatMessage | src/services/chat.service.ts:234-272 | every refusal with nothing stored; otherwise the message is appended and the sender's marker moved |
| Chat.ChatStore.MarkChatRead | src/services/chat.service.ts:275-301 | the marker moves up to the named or newest message and the new count is returned |
| ChatAnswers.ThreadAnswersExactly | src/services/chat.service.ts:112-134 | a page is for the two parties, back from a message of their conversation; to anybody else the job looks like none |
| ChatAnswers.SendAnswersExactly | src/services/chat.service.ts:241-254 | exactly which messages are taken, and the answer of each refusal |
| ChatAnswers.SendWrites | src/services/chat.service.ts:255-263 | one message, as drafted and from the caller, and the caller's own marker |
| ChatAnswers.MarkReadExactly | src/services/chat.service.ts:275-301 | the parties move their own marker, and nothing else, to the named message or the newest |
| ChatAnswers.ReadStateIs | src/services/chat.service.ts:145-159 | the unread count is the number of the other party's messages of the conversation later than the caller's marker |
| ChatPaging.ThreadIsSorted | src/services/chat.service.ts:198-207 | a thread is the (request, mechanic) conversation in (sent_at, id) order, each message once |
| ChatPaging.PageIs | src/services/chat.service.ts:198-221 | sorting newest first, one extra row, slice and reverse give the newest `limit` messages before the cursor, oldest first, and say whether any are left |
| ChatPaging.PagingIsComplete | src/services/chat.service.ts:193-221 | following `before` until hasMore is false returns every message of the thread as it first stood, none twice and all in order, in ceil(n / limit) pages for the n messages returned, whatever is sent meanwhile |
| ChatRuns.RunsAreSteady | src/services/chat.service.ts:255-261 | the moments of any run, in time order, are all that paging needs while the caller stays in the conversation |
| ChatRuns.OlderPartChangesOnlyByTies | src/services/chat.service.ts:202-203 | over every run what lies before a cursor is the same later exactly when no message stored meanwhile has the cursor's instant and a smaller id, and exactly then every page asked for with it is the same |
| ChatRuns.TieChangesPage | src/services/chat.service.ts:202-203 | a run in which such a message changes the page before a cursor |
| ChatRuns.PagingOverRun | src/services/chat.service.ts:193-221 | over every run of sends, reads and job calls, following `before` to the end returns each message of the thread as it first stood once and in order, and beside them exactly the messages stored meanwhile that tied below a cursor by the time it was used |
| ChatRuns.PagesAreTheThreadIffUntied | src/services/chat.service.ts:193-221 | over every run the pages are the thread as it first stood exactly when no cursor in use met a message stored since the first request at its instant with a smaller id |
| ChatRuns.TieIsPagedIn | src/services/chat.service.ts:202-203 | a run in which a message stored meanwhile is paged in between two older ones |
| ChatRuns.MessagesOnlyGrow | src/services/chat.service.ts:255-261 | messages are only ever appended |
| ChatRuns.EveryMessageSentInItsMatch | src/services/chat.service.ts:246-261 | every stored message was sent by one of the two parties while the job was matched to its mechanic |
| ChatRuns.ChatTidy | src/services/chat.service.ts:137-143 | ids are unique and a reply names an earlier message of its own conversation |
| ChatRuns.MarkersNeverMoveBack | src/services/chat.service.ts:161-170 | read markers never decrease |
| ChatRuns.SendingReadsAll | src/services/chat.service.ts:262-263 | sending brings the sender's unread count to zero |
| ChatRuns.MarkAllReadsAll | src/services/chat.service.ts:287-297 | marking all read brings the caller's count to zero |
| ChatRuns.UnreadListAgrees | src/services/chat.service.ts:304-318 | with at most 100 unread jobs the list has exactly the jobs whose readState count is positive, each once with that count |
| ChatRuns.UnreadListExists | src/services/chat.service.ts:304-318 | every caller's unread groups have a list of the query's form |
| ChatRuns.GroupLatest | src/services/chat.service.ts:304-318 | a listed job carries the time of its latest unread message |
| ChatRuns.OnlyThePartiesRead | src/services/chat.service.ts:112-134 | a page shows a caller only messages of the current pair, and only to its two parties |
| Revenue.RevenueLedger.ReportCompletedPayment | src/services/revenue.service.ts:96-168 | every refusal in order with nothing booked; one row at the fee of its urgency otherwise |
| Revenue.ReportAnswersExactly | src/services/revenue.service.ts:96-161 | what a report is answered: of a held job whether it is paid, to its parties alone; else the guards of the device window in order, with every figure written out |
| Revenue.ReportWrites | src/services/revenue.service.ts:163-168 | a report writes nothing, or one row with its figures, the caller and the moment |
| Revenue.NothingBookedTwice | src/services/revenue.service.ts:104-151 | each reported text is booked once, at its urgency's fee, and a text in the form the pattern accepts never for a job the server holds |
| Revenue.SecondSpellingBooksAgain | src/services/revenue.service.ts:148-151 | from any state, a job just booked is booked a second time under another spelling of its id; the exact condition over runs is the next row |
| Revenue.JobBookedOnceExactly | src/services/revenue.service.ts:96-168 | over every run a job has at most one row exactly as long as no report of it passed the guards, in a text not yet booked, while another row named it |
| Revenue.TwoSpellingsBookTwice | src/services/revenue.service.ts:148-151 | the run from the empty database that books one job twice |
| Revenue.HeldJobBookedExactly | src/services/revenue.service.ts:104-119 | over every run a job the server holds has a row exactly when somebody reported it, while it was held, in a form the pattern rejects and past the guards |
| Revenue.HeldJobBookedAnyway | src/services/revenue.service.ts:104-119 | the run in which a held job is booked as well |
| Revenue.CountedOnceExactly | src/services/revenue.service.ts:180-189 | over every run a job counts at most once as revenue exactly when it was neither booked again nor both paid and booked while held |
| Revenue.DailyCap | src/services/revenue.service.ts:153-161 | no client books more than 20 reports in any 24 hours of any run |
| Revenue.JobsReachable | src/services/revenue.service.ts:180-189 | the jobs side of a revenue run is a run of the jobs domain |
| RevenueSummary.BuildMonths | src/services/revenue.service.ts:211-233 | the Map-building loop gives the distinct months in order, each equal to reading the settled list directly |
| RevenueSummary.PartNow | src/services/revenue.service.ts:229-232 | no bucket's figures are ever overwritten |
| RevenueSummary.GroupingExists | src/services/revenue.service.ts:192-203 | every settled list has such a grouping |
| RevenueSummary.MonthsAddUp | src/services/revenue.service.ts:229-232 | month transactions sum to the settled jobs and month revenues to all their fees |
| RevenueSummary.SummaryAddsUp | src/services/revenue.service.ts:191-239 | in every reachable state the months count every row of payments and revenue_ledger once and their revenue is 50 pesos an Urgent and 100 an Emergency row |
| RevenueSummary.MonthFigures | src/services/revenue.service.ts:180-233 | in every reachable state each month shows, urgency by urgency, the payments completed and the reports paid in it at 0, 50 and 100 pesos, and their sums |
| Like.MatchesConcat | src/services/verification.service.ts:296-298 | a pattern is matched piece by piece |
| Like.EscapedIsLiteral | src/db/database.ts:230-232 | an escaped term matches itself and nothing else |
| Like.EscapedNeverDangles | src/db/database.ts:230-232 | escaping never leaves a dangling escape, whatever pattern follows |
| Like.Wildcards | src/db/database.ts:225-232 | an unescaped `_` is any one character and `%` any text |
| Like.SearchIsLiteral | src/services/verification.service.ts:290-298 | `%` + escaped term + `%` matches exactly the texts that contain the term |
| Like.UnescapedPercentMatchesAll | src/db/database.ts:225-229 | without the escape a `%` would match everything |

## Left out

- Columns that no guard reads: a quote's rating and created_at, agreed_amount_set_at, last_login_at, notes, locations and issue texts.
- Display names are user ids, reasons and message bodies arrive trimmed, and an amount or a number of points arrives rounded to hundredths and positive, as the schemas and column checks have it.
- Single-row transactions (progress, agreed amount, cancel, reopen, mechanic cancel, quoting) are one atomic step in the interleaving model, enabled when the locks they need are free; the five multi-statement ones are split.
- Foreign-key locks, index gap behaviour and READ COMMITTED effects beyond explicitly locked rows; sessions, accounts, chat and revenue are atomic steps.
- AwardsAtPolicy: it is stated for payments that read the policy as they settle; for payments that overlap a change of policy, RatesWereInForce says what holds instead.
- Numeric overflow, float error in JavaScript, and the schema maxima of prices, ETAs and page sizes.
- Argon2, HMAC, SHA-256 and JWT signing; refresh tokens key their rows directly, and a password matches itself only.
- The limits on password-reset codes, and the security-event log.
- ILIKE's case folding: `Matches` is LIKE.
- The wallet's entry list, nearby jobs, reviews, the moderator directory, appearance, and the DTOs with their display fields.
- Route role checks, event publishing, Redis, SMTP and storage.
- Which of several tied jobs falls out of listChatUnread beyond its hundredth row; ties in its order are left open.
- EtaGuarantee: a mechanic who has not set off may still cancel a Normal or Urgent job inside the promised time, as the code allows.
- BuildMonths: the month of a payment is a field of the settled row; time zones are the calendar parameter of SettledIn.
