# Verified model of the credits and payments engine

The repository is a Go library that keeps prepaid credits in SQLite: an append-only ledger,
a materialized balance per user, reservations that are settled, released or expired, a
settlement outbox, provider payments with proportional reversals, subscriptions, monthly
grants, an integer pricing engine, and a usage meter for relayed event streams. This
project models that logic in Dafny and proves what the engine promises.

## How it is modelled

Each SQL transaction is one atomic step over maps and sequences: it commits, or leaves the
tables as they were. `Ledger` and `Payments` give every transaction as a function of the
tables. State machines (`Runs`, `Outbox`, `Payments`, `Managed`, `Monthly`) interleave those
steps in any order, by any number of clients, with crashes between any two of them, and the
main theorems quantify over every run. `LedgerEffects`, `PaymentEffects` and the lemmas named
`...Effect`, `...Means` and `...Format` say what each transaction does column by column, which
error it reports when, and what the constants are. The classes (`Service`, `Settlements`, `Processor`,
`MonthlyService`, `Store`, `UsageWriter`) update their tables statement by statement, with
the loops of the original, and are proved equal to those functions or step sequences.

| file | subject |
|---|---|
| `Basics.dfy` | results, identifiers, key strings, 64-bit arithmetic |
| `Query.dfy` | queries ordered by time with a limit |
| `Ledger.dfy`, `Invariants.dfy`, `Runs.dfy`, `LedgerEffects.dfy` | ledger and reservation transactions, what each keeps, every run, what each writes |
| `Reconciliation.dfy`, `CreditsService.dfy` | expiry sweep and drift report; the credit service itself |
| `Pricing.dfy`, `Managed.dfy` | costs, credits, estimates; the managed flow end to end |
| `Outbox.dfy`, `SettlementService.dfy` | the settlement outbox protocol and its procedures |
| `Monthly.dfy`, `Subscriptions.dfy`, `Periods.dfy` | monthly grants, subscription register, paid periods |
| `Reversals.dfy`, `Payments.dfy`, `PurchaseLedger.dfy`, `StaleReads.dfy`, `LargePurchases.dfy`, `PaymentService.dfy`, `PaymentEffects.dfy` | reversal arithmetic, event protocol, per-purchase bookkeeping, what overlapping reads and very large purchases break, the payments service, what it writes |
| `Capture.dfy` | the stream usage meter |

Parameters instead of effects: clock readings, generated ids, and JSON decoding. A generated
id that is already taken makes the transaction fail and roll back; ids are assumed fresh only
where a contract says so (`FreshSupply`, `FreshAttempts`, `DomainFailuresOnly`). Balances and
ledger sums are unbounded integers; pricing and reversal arithmetic is 64-bit with explicit
wrap-around.

The per-purchase theorems assume provider names without `:`, the key spaces `payment:` and
`reversal:` used by nothing else, and that a worker reads a purchase only while no other
worker holds a copy of it; what is lost without the last is said exactly by
`StalePaymentAgreesIff`, `StaleReversalAgreesIff` and `StaleApplyRebindsIff`. The ledger-key
theorems need none of that. Grants and bindings are covered for every purchase, reversals for
every steady one, which includes all of up to 2^62 credits (`SteadyUpToHalf`) and all whose
product of credits and amount fits 64 bits (`SteadyIfFits`); `DependableIffSteady` says that
this is exactly as far as reversals can be relied on. Monthly rows and reported monthly grants
agree as long as other writers stay out of the `monthly:` keys; that there is at most one of
each needs no such assumption.

## Where the code differs from its documentation

The model follows the code.

- `Reserve` with a used request id returns the existing reservation whatever its status
  (credits/reservation.go:56-63).
- The guard of a reserve is `balance - amount >= 0`, not `balance < 0` as its comment says
  (credits/reservation.go:34-36, credits/reservation.go:98-101).
- An overage may make the balance negative and does not make `Settle` fail
  (credits/reservation.go:270-276).
- Expiry leaves `released_amount` at 0 (credits/reconcile.go:73-76).

## Where a desirable property fails

Each has lemmas with failing inputs or runs, and one with the exact condition, an if and only
if over all inputs, runs or states.

- An accepted usage whose weighted cost exceeds MaxInt64 - 999999 is charged nothing or less
  (`CostWrapsNearTheLimit`; exactly: `CostExact`, `CreditsExact`).
- A huge credit size can make a charge negative (`NegativeChargePossible`; exactly:
  `NegativeChargeIff`), which leaves a failed outbox row with an open reservation
  (`NegativeChargeContradicts`; exactly: `CloseCloses`, `UsageContradictsIff`).
- A charge can exceed its estimate, for example through reasoning tokens
  (`ReasoningCanExceedEstimate`; exactly: `ChargeExceedsEstimateIff`). Even within the margin
  it can, when the cost of the quote itself wraps (`WrappedQuoteExceeded`; exactly:
  `EstimateCoversCharge`).
- A large purchase can be refunded without any credit being taken back
  (`OverflowedRefundReversesNothing`; exactly: `TargetExactIffFits`).
- Beyond 2^62 credits there are purchases of which a second refund takes back a further
  fortune and stores negative reversed credits (`LargestIsUnsteady`, `UnsteadyRun`; exactly:
  `SettledInRangeIff` for one reversal, `DependableIffSteady` for whole runs).
- Workers that read a purchase before another's transaction can grant it twice and rebind it,
  or take its credits back twice, each within its lease (`DoubleGrantRun`,
  `DoubleRefundRun`; exactly: `StalePaymentAgreesIff`, `StaleReversalAgreesIff`,
  `StaleApplyRebindsIff`).
- A captured request can be reported failed, for example by the retry after a crash, or
  expired, by a lapse that a settle overtakes (`RetryAfterCrashReportsFailure`,
  `LapseOverwritesSettled`; exactly: `FailsCapturedIff`, `LapsesCapturedIff`,
  `MisreportedIff`). No money moves (`RetryChangesNothing`).
- A worker past its lease can overwrite an applied event with a failure
  (`StalledWorkerReopens`, `ReopenedRun`; exactly: `AppliedLostExactlyByStaleFailure`).
- A monthly grant can be written just after the subscription was paused, because the check
  is a separate statement (`GrantAfterPause`, `PausedRunGrants`; exactly:
  `GrantedInactiveIff`).
- Two subscription events with equal creation time and different content converge to
  whichever came first (`FirstLatestStays`; exactly: `ConvergesIffUnambiguous`).
- Two different paid periods can share an idempotency key when both a subscription id and an
  invoice id contain `:`; the second is then reported as granted without a ledger row
  (`PeriodKeysCollide`; exactly: `SharedKeyIff`, `SecondPeriodGrantedIff`).
- The usage captured from an event line over 1 MiB depends on how the stream was cut
  (`OverlongEventDependsOnCut`; exactly: `EventCutsAgreeIffFits`). Other lines over 1 MiB are
  captured the same however they are cut exactly when no cut leaves an event in the buffer
  (`CutsAgreeIff`), as for a line that lacks a byte of `data:` (`PlainCutsAgree`), but not
  for an event behind a buffer of other text (`BuriedEventDisagrees`).
- A response that does not start in stream mode turns into a stream or not depending on how
  it was cut, as soon as `data:` occurs anywhere in it (exactly: `ModeAgreesIff`, whose
  failing half cuts around `data:` and into single bytes); and what is kept of a body over
  1 MiB depends on the cut (exactly: `BodyCutsAgreeIff`).

## Model

| member | source | states |
|---|---|---|
| `Runs.ReachableBalances` | credits/reservation.go:95-127 | after every run each balance equals the user's ledger sum, and equals grants less refunds less amounts reserved less amounts captured; every user of a ledger row or reservation has an account row |
| `Runs.ReachableConservation` | credits/reservation.go:168-219 | after every run the ledger rows of a reservation belong to its user and sum to -amount while reserved, -captured once captured, 0 once released or expired |
| `Runs.ClosedForever` | credits/reservation.go:197-209 | over every run a reservation keeps user, request and amount, leaves `reserved` at most once and never changes afterwards |
| `Runs.ReachableKeysUnique` | credits/ledger.go:67-78 | over every run no idempotency key and no ledger id occurs on two rows |
| `Runs.SnapshotSafe` | credits/reconcile.go:62-103 | whatever ran since the snapshot, expiring an entry changes nothing (exactly when the row was closed meanwhile or the id is taken) or returns the row's own amount to its own user once |
| `Runs.RepeatNeverDebits` | credits/reservation.go:37-63 | once a request has a reservation, reserving again for the same user returns it and changes nothing, after any further run and for any amount; an amount below 1 is refused and changes nothing |
| `Runs.ExactlyAffordable` | credits/reservation.go:93-109 | of n fresh reserves of the same amount, in any order, exactly min(n, balance / amount) succeed, and the balance falls by exactly those |
| `Runs.StepKeeps` | credits/reservation.go:119-126 | every transaction keeps the money invariant and the sweeps' memory, and never reopens or edits a closed reservation |
| `Runs.StepAppends` | credits/ledger.go:90-97 | the ledger is append-only: a step adds at most one row, at the end, under its own key |
| `Invariants.AdjustKeeps` | credits/ledger.go:51-114 | grants and refunds keep balances equal to ledger sums, conservation and uniqueness |
| `Invariants.ReserveKeeps` | credits/reservation.go:37-127 | reserving keeps the same invariant and touches no existing reservation |
| `Invariants.FinalizeKeeps` | credits/reservation.go:168-305 | settling and releasing keep the same invariant, overage included |
| `Invariants.ExpireOneKeeps` | credits/reconcile.go:65-103 | expiring a remembered row keeps the same invariant |
| `LedgerEffects.IdentifierLimits` | credits/validate.go:8-18 | a plain identifier is valid if and only if it has a character that is not white space and at most 512 in all |
| `LedgerEffects.GrantEffect` | credits/ledger.go:27-114 | a grant succeeds exactly for a positive amount, valid identifiers and an unused key and id, which error is reported otherwise, and on success one user's balance rises by the amount, nobody else's moves, and every column of the one new row |
| `LedgerEffects.RefundEffect` | credits/ledger.go:40-114 | the same for a refund, which lowers the user's balance by the amount whatever it is |
| `LedgerEffects.ReserveEffect` | credits/reservation.go:37-127 | which error a reserve reports and in which order, when it returns the existing reservation and when it refuses another user's, and every column of a new reservation, of its ledger row and of the balances |
| `LedgerEffects.ReserveReturnsOwn` | credits/reservation.go:53-90 | a successful reserve returns a reservation of the caller for the request asked for |
| `LedgerEffects.OthersRequestRefused` | credits/reservation.go:57-59 | in every reachable state a request of another user is refused and nothing changes |
| `LedgerEffects.SettleEffect` | credits/reservation.go:152-305 | which error a settle reports, and otherwise status, captured and released columns, the ledger row for what is left or lacking, and the balance |
| `LedgerEffects.ReleaseEffect` | credits/reservation.go:161-305 | a release leaves the reservation released with nothing captured and its amount released and returned; which error is reported otherwise |
| `LedgerEffects.ExpireEffect` | credits/reconcile.go:65-103 | an expiry changes the status of an open row and pays the remembered amount to the remembered user, with every ledger column, and does nothing to a closed row |
| `LedgerEffects.StepsAreTransactions` | credits/reservation.go:152-166 | each step of a run is the transaction it is named after |
| `CreditsService.Service.GetBalance` | credits/ledger.go:12-20 | the materialized balance, 0 for a user without account row |
| `CreditsService.Service.Adjust` | credits/ledger.go:51-114 | ledger row and account upsert together, or a refusal (invalid, duplicate key, taken id) with nothing changed |
| `CreditsService.Service.Grant` | credits/ledger.go:27-34 | a positive amount is credited through the shared transaction, anything else refused |
| `CreditsService.Service.Refund` | credits/ledger.go:40-47 | a positive amount is debited through the shared transaction, without regard to the balance |
| `CreditsService.Service.LookupReservation` | credits/reservation.go:131-144 | finds the reservation of a request exactly when there is one |
| `CreditsService.Service.Reserve` | credits/reservation.go:37-91 | the whole reserve transaction with every refusal, and a handle that mirrors the row, which is the caller's own and for the request asked for |
| `CreditsService.Service.DebitReservation` | credits/reservation.go:95-127 | guarded debit, reservation row and ledger row, or nothing |
| `CreditsService.Service.FinalizeHandle` | credits/reservation.go:168-219 | the whole finalize transaction; the caller's struct mirrors the row on success and is untouched by a domain failure |
| `CreditsService.Service.Settle` | credits/reservation.go:152-157 | a missing handle is refused; otherwise the row is captured at the given cost or the refusal reported |
| `CreditsService.Service.Release` | credits/reservation.go:161-166 | a missing handle is refused; otherwise the whole amount is returned or the refusal reported |
| `CreditsService.Service.WriteReturn` | credits/reservation.go:285-305 | ledger row and bare balance update, which does nothing without an account row |
| `CreditsService.Service.Expire` | credits/reconcile.go:65-103 | flips a still reserved row and pays the remembered amount, or does nothing |
| `CreditsService.Service.CollectStale` | credits/reconcile.go:27-51 | lists exactly the rows with status reserved and created_at before the cutoff, each once |
| `CreditsService.Service.ExpireStale` | credits/reconcile.go:26-60 | expires the snapshot entry by entry and stops at the first error |
| `CreditsService.Service.DetectDrift` | credits/reconcile.go:107-133 | reports exactly the users whose balance differs from their ledger sum, each once, with both numbers |
| `CreditsService.Service.Reconcile` | credits/reconcile.go:16-60 | a row that was reserved and created before now less the timeout ends as itself with status expired, given fresh ids; every other row is unchanged in any case; nobody's drift changes when every open row's user has an account; the report is exact |
| `Reconciliation.SweepClosesExactlyStale` | credits/reconcile.go:26-60 | run alone on any tables, the sweep closes exactly the reserved rows older than the cutoff |
| `Reconciliation.SnapshotMeans` | credits/reconcile.go:28-31 | the query of a sweep returns every reserved row created before the cutoff, once, with its user and amount, and no other |
| `Reconciliation.SweepLeavesOthers` | credits/reconcile.go:53-59 | a sweep, complete or not, changes no reservation that is not on its list |
| `Reconciliation.SweepStops` | credits/reconcile.go:54-58 | the first failing expiry ends the sweep with its error and changes nothing |
| `Reconciliation.ExpiryDrift` | credits/reconcile.go:87-101 | an expiry leaves every drift unchanged if and only if the user has an account row (or the amount is 0) |
| `Reconciliation.SweepKeepsDrift` | credits/reconcile.go:7-15 | a sweep whose users have accounts changes no drift, complete or not |
| `Reconciliation.ReachableReportEmpty` | credits/reconcile.go:105-133 | on every reachable state the drift report is empty |
| `Pricing.ProductCheck` | credits/pricing.go:96-98 | the division test refuses exactly the products that do not fit int64 |
| `Pricing.Accumulate` | credits/pricing.go:94-104 | the loop accepts exactly non-negative inputs whose sum of products fits int64, and returns that sum |
| `Pricing.ComputeCost` | credits/pricing.go:88-106 | the cost or the refusal of a usage |
| `Pricing.IntDivCeilExact` | credits/pricing.go:114-119 | the 64-bit rounding division is exact if and only if its addition does not wrap |
| `Pricing.CostExact` | credits/pricing.go:88-119 | for every accepted usage, cost is the weighted sum over a million rounded up if and only if the sum is at most MaxInt64 - 999999, and not positive otherwise |
| `Pricing.CostWrapsNearTheLimit` | credits/pricing.go:105-118 | an accepted usage with maximal weighted cost that is priced at zero or less |
| `Pricing.CreditsExact` | credits/pricing.go:130-147 | for every accepted usage, rounding twice equals rounding once if and only if neither addition wraps |
| `Pricing.EstimateExact` | credits/pricing.go:152-174 | for every accepted quote and every credit size, the estimate is the exact one, at least 1, if and only if the nominal cost does not wrap or is worth at most a credit |
| `Pricing.EstimateWithinLimit` | credits/pricing.go:167-173 | while the nominal cost does not wrap the margin guard never fires, and up to an explicit credit size no step of the estimate wraps |
| `Pricing.EstimateCoversCharge` | credits/pricing.go:149-174 | for every credit size, a usage within 6/5 of its quote is charged at most its estimate if and only if the cost of the quote does not wrap, or the charge does, or the usage is worth at most a credit |
| `Pricing.WrappedQuoteExceeded` | credits/pricing.go:163-174 | a plain usage inside its quote, charged above the estimate because the cost of the quote wraps |
| `Pricing.ChargeAtMostIff` | credits/pricing.go:130-147 | a charge is at most a number of credits if and only if the exact cost is, or one of the two additions wraps |
| `Pricing.ChargeExceedsEstimateIff` | credits/pricing.go:141-174 | for every usage and quote, the charge exceeds the estimate if and only if the exact cost of the usage exceeds the credits that the exact cost of the quote amounts to, and neither addition of the charge wraps |
| `Pricing.PlainUsageWithinMargin` | credits/pricing.go:149-151 | a usage within the quoted token counts without cached or reasoning tokens is within the margin |
| `Pricing.ReasoningCanExceedEstimate` | credits/pricing.go:108-111 | a usage with reasoning tokens charged above its estimate |
| `Pricing.NegativeChargeIff` | credits/pricing.go:130-147 | an accepted usage is charged a negative amount if and only if its rounded cost wraps the second addition and falls short of it by a credit size |
| `Pricing.ChargesNonNegative` | credits/pricing.go:141-147 | up to an explicit credit size no usage is charged a negative amount |
| `Pricing.NegativeChargePossible` | credits/pricing.go:130-138 | beyond the bound a positive cost can be charged as -1 credits |
| `Pricing.MillionTokens` | credits/pricing.go:84-106 | a million tokens of a class cost exactly the price of that class, for each of the four classes |
| `Pricing.NumeratorAdds` | credits/pricing.go:93-104 | the weighted cost is the sum of those of the four token classes |
| `Pricing.EstimateMillion` | credits/pricing.go:149-174 | an estimate for a million input, or output, tokens is six fifths of the price of that class in credits, at least one |
| `Pricing.CreditSizeMeans` | credits/pricing.go:130-133 | a credit is the configured number of micro-units, or 1000 |
| `Pricing.PricingErrors` | credits/pricing.go:88-165 | which error is reported for an unknown model, for a usage that cannot be priced and for negative token counts |
| `Managed.OverageExactlyWhenExceeded` | credits/reservation.go:269-281 | in every reachable state a reservation has an overage row if and only if more was captured than reserved |
| `Managed.ManagedRunsStaySolvent` | credits/reservation.go:258-282 | in every run with estimated reserves, charges within the margin of a quote that covers them, and no refunds: no overage row, no capture above its reserve, no negative balance |
| `Managed.ManagedSteps` | credits/pricing.go:149-174 | a managed reserve takes exactly the estimate of its quote and a managed settle charges exactly the price of its usage |
| `Managed.PlainSettleAdmissible` | credits/pricing.go:149-151 | settling a plain usage inside its quote is among the runs covered |
| `Outbox.CloseCloses` | credits/settlement.go:25-34 | when an open reservation gets closed, and when captured, if and only if |
| `Outbox.OutboxNeverContradicts` | credits/settlement.go:14-40 | at every step boundary, with crashes anywhere, a non-pending row points to a closed reservation and a settled row to a captured one |
| `Outbox.NegativeChargeContradicts` | credits/settlement.go:31-34 | with a negative charge every such call ends in a failed row over an open reservation |
| `SettlementService.UsageContradictsIff` | credits/settlement.go:25-34 | which usages leave a failed row over an open reservation, if and only if, in terms of usage, prices and credit size |
| `Outbox.RetryChangesNothing` | credits/reservation.go:248-250 | once a call has closed its reservation, no later call changes a balance, ledger row or reservation, whatever happens in between |
| `Outbox.RetryAfterCrashReportsFailure` | credits/settlement.go:31-39 | a crash after the settle makes the retry mark the captured request failed |
| `Outbox.FailsCapturedIff` | credits/settlement.go:25-34 | a call reaches the verdict failed over a captured reservation if and only if it was captured before the call tried to charge it |
| `Outbox.LapsesCapturedIff` | credits/settlement.go:78-82 | a lapse marks a captured reservation expired if and only if it was captured before the lapse tried to release it |
| `Outbox.MisreportedIff` | credits/settlement.go:14-88 | over every run, a row is failed or expired over a captured reservation if and only if the last verdict written on it was reached by a call that found it captured |
| `Outbox.LapseOverwritesSettled` | credits/settlement.go:78-82 | a lapse that saw the reservation open before the settle overwrites the settled row as expired |
| `SettlementService.SettlementEffect` | credits/settlement.go:14-40 | status and attempts that a settlement leaves on the row and what it does to the reservation, in each of its cases |
| `SettlementService.LapseEffect` | credits/settlement.go:69-86 | a request that has waited more than 3600 seconds over a reserved reservation ends expired and the reservation released; in every other case nothing changes |
| `SettlementService.PendingBatch` | credits/settlement.go:55-68 | a batch holds pending requests, oldest first, and leaves out none that is older |
| `SettlementService.DrainGrows` | credits/settlement.go:70-86 | the loop lapses every request of the batch, one after the other |
| `SettlementService.Settlements.EnqueueSettlement` | credits/settlement.go:8-12 | inserts a pending row with user, reservation, no attempts and the time, unless the request has one |
| `SettlementService.Settlements.SettleViaOutbox` | credits/settlement.go:14-40 | prices the usage and takes exactly the protocol's three steps; succeeds exactly when the settle does |
| `SettlementService.Settlements.ProcessSettlementOutbox` | credits/settlement.go:51-88 | takes the oldest pending requests up to the limit and lapses them in that order |
| `SettlementService.Settlements.LapseOne` | credits/settlement.go:70-86 | a request older than 3600 seconds over a reserved reservation is marked expired and the reservation released with its amount returned; in every other case the tables are unchanged |
| `Query.Oldest` | credits/settlement.go:55-68 | the oldest keys up to the limit, each once, in order, leaving out no older one |
| `Monthly.PeriodInjective` | credits/monthly.go:50-50 | different months have different periods, none containing the separator |
| `Monthly.MonthlyKeyInjective` | credits/monthly.go:10-12 | the key determines user and month even when the user id contains the separator |
| `Monthly.EnsureReportsTruth` | credits/monthly.go:36-60 | a call reports true exactly when it wrote one row with the plan's credits, which needs an entitled user, a positive plan and an unused key |
| `Monthly.PlanMeans` | credits/monthly.go:16-23 | a listed plan grants its own credits, any other the default |
| `Monthly.MonthlyEffect` | credits/monthly.go:36-60 | the entitlement test, the grant with every argument, and the answer for each outcome |
| `Monthly.MonthlyKeyFormat` | credits/monthly.go:8-12 | the period and key strings of given months |
| `Monthly.CallIsTwoSteps` | credits/monthly.go:36-60 | an undisturbed call has the effect of its two steps, the subscription check and the grant |
| `Monthly.MonthlyOnce` | credits/monthly.go:25-60 | over every interleaving of calls, crashes, subscription changes and other traffic, a user and month has at most one row and at most one call reports it; the two agree if other writers stay out of the `monthly:` keys |
| `Monthly.GrantedInactiveIff` | credits/monthly.go:36-60 | whatever others do between the check and the grant of a call, the grant that is written goes to a user no longer entitled if and only if the last subscription change in between is to a status other than active |
| `Monthly.GrantAfterPause` | credits/monthly.go:37-52 | a call that saw an active subscription still grants when it is paused before the grant |
| `Monthly.PausedRunGrants` | credits/monthly.go:36-60 | whole runs from empty tables in which a paused user is granted credits |
| `Monthly.MonthlyService.EnsureMonthlyGrant` | credits/monthly.go:36-60 | the call as analysed, including gate, plan lookup and duplicate |
| `Capture.SplitRoundTrip` | credits/byokcapture.go:48-58 | the reference split joins back to the stream and no line or tail contains LF |
| `Capture.LastUsageIsLast` | credits/byokcapture.go:67-79 | the reference usage is announced by some line and by no later one |
| `Capture.FeedConcat` | credits/byokcapture.go:37-59 | feeding two pieces equals feeding their concatenation |
| `Capture.FeedIsReference` | credits/byokcapture.go:37-79 | feeding byte by byte computes the reference split and usage |
| `Capture.AbsorbIsFeed` | credits/byokcapture.go:48-65 | the chunk loop equals byte-wise feeding while lines fit the buffer |
| `Capture.EventFormat` | credits/byokcapture.go:67-76 | an event line written out byte by byte is decoded from its payload, white space around both removed |
| `Capture.OtherFieldSilent` | credits/byokcapture.go:68-71 | a line that starts with another character announces nothing |
| `Capture.SpacesMean` | credits/byokcapture.go:68-72 | which bytes count as white space at either end |
| `Capture.CaptureLimits` | credits/byokcapture.go:13-65 | the buffer takes 1048576 bytes and not one more, and lines end at LF |
| `Capture.ChunkingIrrelevant` | credits/byokcapture.go:37-79 | with no LF-terminated line over 1 MiB, any sequence of writes captures the last usage of those lines of the whole stream; an unterminated tail of any length contributes nothing |
| `Capture.SameStreamSameUsage` | credits/byokcapture.go:37-79 | two ways of cutting a stream capture the same usage, and the same buffer if the tail fits it |
| `Capture.CutsAgreeIff` | credits/byokcapture.go:48-79 | a line is captured the same however it is cut, for every decoder, if and only if it fits the buffer or no cut of it leaves an event in the buffer |
| `Capture.EventCutsAgreeIffFits` | credits/byokcapture.go:61-79 | an event line, `data:` after white space, is captured the same however it is cut, for every decoder, if and only if it fits the buffer |
| `Capture.PlainCutsAgree` | credits/byokcapture.go:67-71 | a line that lacks a byte of `data:` is captured the same however it is cut and however long it is |
| `Capture.BuriedEventDisagrees` | credits/byokcapture.go:61-79 | an event behind more than a buffer of other text on its line is captured or not depending on the cut |
| `Capture.HarmlessLinesIgnored` | credits/byokcapture.go:37-79 | if no cut of an overlong line leaves an event in the buffer, every way of cutting the stream captures the last usage of the terminated lines that fit |
| `Capture.OverlongLineDependsOnCut` | credits/byokcapture.go:61-65 | an overlong line announces a usage or none depending on the cut |
| `Capture.OverlongEventDependsOnCut` | credits/byokcapture.go:61-79 | the same for a `data:` event with any payload that decodes |
| `Capture.ModeAgreesIff` | credits/byokcapture.go:38-41 | whether a response turns into a stream does not depend on how it is cut if and only if `data:` occurs nowhere in it, and then it never does |
| `Capture.BodyCutsAgreeIff` | credits/byokcapture.go:42-47 | what is kept of a body does not depend on how it is cut if and only if it fits the buffer |
| `Capture.UsageWriter.CaptureChunk` | credits/byokcapture.go:37-59 | one write: switch to stream mode, body buffering, or the chunk loop |
| `Capture.UsageWriter.CaptureStream` | credits/byokcapture.go:48-58 | the loop over LFs refines the value-level chunk function |
| `Capture.UsageWriter.AppendLine` | credits/byokcapture.go:61-65 | a piece is appended whole or dropped whole |
| `Capture.UsageWriter.EndLine` | credits/byokcapture.go:67-79 | a closed line replaces the usage if it announces one, and empties the buffer |
| `Capture.UsageWriter.Finish` | credits/byokcapture.go:91-134 | records at most one usage, from the stream or from the buffered body |
| `Capture.Relay` | credits/byokcapture.go:37-134 | a whole response records, once, exactly the reference usage of its stream since the first chunk that looks like an event, or of what is kept of its body, all of it if it fits |
| `Subscriptions.Store.ApplySubscription` | payments/payments.go:300-329 | validation, status normalization and the strictly-later upsert |
| `Subscriptions.StatusMeans` | payments/payments.go:304-315 | the nine accepted statuses and what each is stored as |
| `Subscriptions.UpsertEffect` | payments/payments.go:300-329 | an accepted, later event writes every column of its subscription's row from its own; any other changes nothing |
| `Subscriptions.LatestWins` | payments/payments.go:320-327 | whatever the order and repetition, a subscription ends in the row of a latest event, and has a row exactly when some accepted event concerns it |
| `Subscriptions.FirstLatestStays` | payments/payments.go:327-327 | a latest event delivered first keeps the row |
| `Subscriptions.ConvergesIffUnambiguous` | payments/payments.go:300-329 | all deliveries of the same events end in the same row if and only if the latest events agree |
| `Subscriptions.SubscriptionsConverge` | payments/payments.go:300-329 | with distinct creation times every order and repetition ends in the same row |
| `Periods.SharedKeyIff` | payments/payments.go:353-353 | two paid periods share a key if and only if they are equal or one is nested in the other |
| `Periods.PeriodKeyInjective` | payments/payments.go:353-353 | without separators in the subscription ids, or else in the invoice ids, keys identify periods |
| `Periods.PeriodKeysCollide` | payments/payments.go:353-353 | two different periods with one key |
| `Periods.GrantSubscriptionPeriod` | payments/payments.go:349-358 | validation, the grant, and a used key taken as success |
| `Periods.PeriodEffect` | payments/payments.go:349-358 | which arguments are refused, and the grant with every argument otherwise |
| `Periods.PeriodKeyFormat` | payments/payments.go:353-353 | the key string of a given period |
| `Periods.PeriodGrantedOnce` | payments/payments.go:349-358 | after a successful call and any further run the ledger holds exactly one row under the period's key, and calling again writes nothing |
| `Periods.SecondPeriodGrantedIff` | payments/payments.go:353-357 | a second, different period is always reported granted, and is granted if and only if neither period is nested in the other |
| `Reversals.TargetExactIffFits` | payments/payments.go:211-214 | the program's total is the exact rounded-up share if and only if the intermediate sum fits int64 |
| `Reversals.FitsIsEnough` | payments/payments.go:213-213 | a purchase with credits*amount+amount-1 within int64 never wraps, whatever the event says |
| `Reversals.OverflowedRefundReversesNothing` | payments/payments.go:213-213 | a purchase whose full refund takes back nothing |
| `Reversals.TargetBounds` | payments/payments.go:211-214 | exact totals lie between 1 and all credits, and a full return reverses all |
| `Reversals.ComputedAtMost` | payments/payments.go:211-214 | the program's total never exceeds the credits, wrapped or not |
| `Reversals.SteadyUpToHalf` | payments/payments.go:211-214 | every purchase of up to 2^62 credits is steady, whatever its amount |
| `Reversals.SteadyIfFits` | payments/payments.go:213-213 | so is every purchase whose reversals never wrap |
| `Reversals.LargestIsUnsteady` | payments/payments.go:213-213 | three quarters of the largest purchase wrap to a negative total, so it is not steady |
| `Payments.ApplyIsLedgerStep` | payments/payments.go:205-226 | every applied event is one step of the credit ledger, so all ledger theorems apply |
| `Payments.PaymentKeyInjective` | payments/payments.go:206-206 | payment keys identify provider and payment |
| `Payments.ReversalKeyInjective` | payments/payments.go:216-216 | reversal keys identify provider and event |
| `Payments.GrantedAtMostOnce` | payments/payments.go:179-245 | over every interleaving of any workers, stale ones included, each payment is granted and each event reversed at most once, and balances equal ledger sums |
| `Payments.LeaseStep` | payments/payments.go:179-188 | every step of disciplined workers keeps the lease invariant and applied marks |
| `Payments.LeaseExclusion` | payments/payments.go:153-188 | with a monotone clock and workers that stop by their deadline, no two workers hold one event, and applied is absorbing |
| `Payments.AppliedLostExactlyByStaleFailure` | payments/payments.go:294-298 | a step loses an applied mark if and only if it is a failure write on an applied event; while leases are kept, by a worker past its deadline |
| `Payments.StalledWorkerLapses` | payments/payments.go:154-156 | a stalled worker's event returns to the queue while the worker still holds it |
| `Payments.StalledWorkerReopens` | payments/payments.go:294-298 | the stalled worker's failure write then reopens an applied event |
| `Payments.ReopenedRun` | payments/payments.go:149-298 | whole runs from empty tables, for every well-formed paid event, that end with an applied event marked failed |
| `PurchaseLedger.NetEffect` | payments/payments.go:189-244 | with events of a purchase processed one at a time, its grants sum to its credits if a payment was applied, else 0, for every purchase; its reversals sum to reversed_credits, between 0 and its credits, for every steady one |
| `PurchaseLedger.RowsBelongToBuyer` | payments/payments.go:205-220 | every row that grants or reverses a purchase belongs to the user who bought it; a grant is of exactly its credits |
| `PurchaseLedger.ReversedIsComputedMaximum` | payments/payments.go:205-240 | reversed_credits of a steady purchase is the maximum of what the applied reversals ask for by the program's reckoning, and 0 without any |
| `PurchaseLedger.ReversedIsMaximum` | payments/payments.go:205-240 | for a purchase with credits*amount+amount-1 within int64 that is the maximum of the exact rounded-up shares |
| `PurchaseLedger.ReversalsConverge` | payments/payments.go:205-240 | two runs whose applied reversals of equal steady purchases report the same amounts, in any order and number, end with the same reversed_credits and the same ledger reversals |
| `PurchaseLedger.BoundToOnePayment` | payments/payments.go:193-195 | all events applied to a purchase name the one payment it is bound to |
| `PurchaseLedger.OnePurchasePerPayment` | payments/schema.sql:20-20 | two purchases never hold the same payment |
| `PurchaseLedger.ReversedNeverDecreases` | payments/payments.go:227-237 | from any point of a run to any later one, credits, amount, provider and user of a purchase do not change, a binding stays, and the reversals of a steady purchase only grow |
| `PurchaseLedger.StaleReadBreaksReckoning` | payments/payments.go:189-236 | a reversal computed from an earlier read keeps ledger and purchase in agreement if and only if the stored total, wrapped to 64 bits, is the current one plus what the ledger now loses |
| `StaleReads.ReachableCopies` | payments/payments.go:189-195 | in every run whatsoever, the purchase a worker has read is right about provider, user, credits and amount |
| `StaleReads.StalePaymentAgreesIff` | payments/payments.go:189-230 | a payment applied from an earlier read keeps the grants in agreement with the purchase if and only if it is not paid since or by this payment; otherwise it is granted twice; the reversals are as before |
| `StaleReads.StaleReversalAgreesIff` | payments/payments.go:189-237 | the same for a reversal, in terms of the stored total and the current reversed_credits; the grants are as before |
| `StaleReads.StaleApplyRebindsIff` | payments/payments.go:193-237 | applying from an earlier read overwrites the binding of a purchase if and only if it is bound to another payment by then |
| `StaleReads.DoubleGrantRun` | payments/payments.go:179-245 | runs from empty tables, every worker within its lease, that grant a purchase twice and rebind it |
| `StaleReads.DoubleRefundRun` | payments/payments.go:179-245 | runs from empty tables, every worker within its lease, in which two full refunds take back twice the credits that the purchase records |
| `StaleReads.ShortIsProper` | credits/validate.go:8-18 | names of ordinary length meet the assumptions of these runs |
| `LargePurchases.SettledInRangeIff` | payments/payments.go:211-234 | a reversal applied to the current row keeps reversed_credits between 0 and the credits if and only if the difference it computes fits int64 |
| `LargePurchases.UnsteadyRun` | payments/payments.go:179-245 | runs from empty tables, events one at a time, after which an unsteady purchase has negative reversed_credits and disagrees with the ledger |
| `LargePurchases.DependableIffSteady` | payments/payments.go:189-244 | ledger and reversed_credits of a purchase agree within bounds over all runs if and only if it is steady |
| `PaymentService.ProcessedCases` | payments/payments.go:179-245 | the protocol's four steps, run in sequence, leave an unclaimable event alone, commit the attempted transaction, or at most mark the event failed |
| `PaymentEffects.KindMeans` | payments/payments.go:124-126 | the three event statuses and what they mean; any other is refused |
| `PaymentEffects.KeyFormats` | payments/payments.go:206-216 | the keys and reasons of given payments and reversals |
| `PaymentEffects.SettledColumns` | payments/payments.go:227-237 | every column of the purchase after a payment, a refund and a dispute |
| `PaymentEffects.ProcessEffect` | payments/payments.go:179-245 | processing an event: when it is left alone, when it is taken for 30 seconds and at most marked failed, and when it goes through, with the ledger call, the purchase and every column of the event |
| `PaymentEffects.LeaseEffect` | payments/payments.go:154-156 | exactly the events in processing whose lease lies before now return to the queue as failed |
| `PaymentEffects.WaitingBatch` | payments/payments.go:157-170 | a batch holds received and failed events, oldest first, and leaves out none that is older |
| `PaymentEffects.QueueGrows` | payments/payments.go:171-176 | a batch is processed event by event as long as each succeeds, and no further |
| `PaymentService.Processor.CreatePurchase` | payments/payments.go:96-110 | when it is refused, and every column of the one purchase added otherwise |
| `PaymentService.Processor.Record` | payments/payments.go:120-143 | a new event is stored with every column, a known one left alone, one with another payload or a missing field refused |
| `PaymentService.Processor.ReceiveEvent` | payments/payments.go:120-145 | an incomplete event, an unknown status or a reused id changes nothing; an accepted event is stored and the queue processed |
| `PaymentService.Processor.WriteLedger` | payments/payments.go:204-226 | the grant or refund of an event, a used key counting as done |
| `PaymentService.Processor.FailEvent` | payments/payments.go:294-298 | the unconditional failure write, which may not happen |
| `PaymentService.Processor.Transact` | payments/payments.go:198-245 | ledger, purchase and event together or none of them |
| `PaymentService.Processor.ProcessClaimed` | payments/payments.go:189-245 | after the claim: the committed transaction, or at most the failure mark |
| `PaymentService.Processor.ProcessOne` | payments/payments.go:179-245 | equals the protocol's steps take, load, apply, fault in sequence |
| `PaymentService.Processor.ProcessPending` | payments/payments.go:149-177 | lapses leases, takes the oldest waiting events up to the limit, and stops at the first failure |

## Left out

- SQLite drivers, pragmas, busy retries and lock behaviour: transactions are taken as serializable and atomic.
- Credential encryption and storage: the cipher is a foreign library.
- HTTP relay, proxying, header, path and body patching: input and output plumbing.
- The Stripe adapter: its events are inputs here.
- The two-phase fallback for other ledgers (payments/payments.go:246-291): another event can run between its phases.
- Liveness and draining of the event queue and of the outbox.
- The worker timer loop, backoff and dead-letter callback.
- Schema migrations: only the uniqueness constraints are kept.
- int64 overflow of balances, ledger sums and the overage difference.
- Usage records (validation, storage, the audit against the ledger), including the retry after settling.
- Wall-clock columns (updated_at, canceled_at, fulfilled_at and the like), error texts, currency, SKU and metadata beyond the reason.
- The payments reconcile report: a plain query.
- Query.Oldest: the order among equal times is left open, as the query leaves it.
- Monthly.PeriodInjective: does not cover years before 0.
- Strings are sequences of Unicode characters; invalid UTF-8 is not represented.
