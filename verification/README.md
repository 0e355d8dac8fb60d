# Verified models of the billing, audit and text components

This project models, in Dafny, the parts of the system whose correctness depends on more
than one function, and proves what they promise.

**Subscription renewal ledger.** `Ledger` holds one tenant's rows (subscription, monthly
invoices, cancellation requests) and gives every billing operation as a function from rows to
rows or to an error. `BillingRepository`, `BillingService` and `BillingJobs` carry the same
operations out statement by statement on tables of all tenants, with the tenant loops and
their metrics, and are proved equal to those functions; other tenants are never touched.
`TenantAdmin` does the same for the platform administrator's operations. `LedgerInvariant` and
`LedgerRuns` prove what every run from sign-up keeps; `LedgerRows`, `LedgerRetry`, `LedgerBilling`,
`LedgerStatus`, `Cancellations` and `CancellationRuns` prove the further theorems about runs,
`LedgerOutcomes` and `CancellationOutcomes` say in days, amounts and rows what each operation leaves behind,
`LedgerRebilled` what follows in the runs that are not sound, and `LedgerExamples` gives concrete runs
in which a desirable property fails. Deleting a tenant deletes its rows: the theorems say so, and the
model's fields then keep what they last held. Two fields of the model are observations and not columns: the charges the payment gateway
received from the daily retry, and the history of the paid-until date (each entry an invoice
settled for so many months, or a plan change).

**Calendar, usage periods, prices, proration.** `Calendar` has real Gregorian dates with day
ordinals; `BillingPeriods`, `Pricing` and `Proration` build on it.

**Second-factor limiter.** `MfaLimiter` is one scope's counter against the history of counted
failures; `MfaService` is the class that keeps one row per scope and runs the login step.

**Audit trail.** `AuditCursor` is the cursor encoding down to Base64; `AuditTrail` the listing,
the pages and the export.

**Text.** `Spans`, `Chunking`, `HuTaxId`, and the layout-based PDF extraction: `InlineText` puts a
text in order and `InlineSpacing` tells that in one pass, `PdfLayout` takes words to lines and cells,
`PdfBlocks` lines to blocks, and `PdfOutcomes` says in points and texts what comes out. `Sorting`
(the stable sort), `Grouping` (cutting a list), `Collecting` (mapping a list and dropping items) and
`Whitespace` are shared.

## What was found

Each item is a lemma, with the exact condition where there is one.

- An immediate plan change moves the paid-until date and leaves an open request alone. It keeps
  the ledger sound if and only if it leaves the date where it is, or there is no debt and the new
  date is later than every date billed (`MoveSound`, `ChangeOverOpenRequest`). These are the only
  steps with which a run leaves the sound ledgers (`RunSound`).
- After a change back to a date already billed the tenant keeps the new plan and is never billed
  again, however long the jobs run; a payment extends coverage without an invoice; and if one is
  refused, every retry the gateway accepts charges the tenant, raises and leaves no mark, any number
  of times a day (`MovedBack`, `NeverBilledAgain`, `PaidWithoutInvoice`, `ChargedWithoutBound`, and the
  runs `UpgradedForNothing` and `ChargedEachTime`). A retry raises if and only if another row has the
  debt's key and the kind the debt is given (`RetryRaisesExactly`).
- Paying in advance with a change scheduled charges for the scheduled period and grants the
  current one (`ChargedVersusGranted`, `ChargedOneGrantedTwelve`).
- Paying in advance asks the gateway for the storage beyond the plan in force, and invoices what a
  second reading finds beyond the plan in force after a due change; the two amounts are equal if and
  only if the two extra storages are (`AskedVersusInvoiced`, `AskedLessThanInvoiced`).
- A change scheduled after the request was issued is taken over by the next cycle while the
  request is open, so the request is settled for a length it was not issued for
  (`SettledAsWritten`, `ChargedTwelveGrantedOne`).
- A restriction for an overdue payment lifts itself at the next synchronisation, because writing
  it stamps the subscription (`DebtRestrictionFades`, and the run `RestrictionFadesInARun`).
- Cancelling twice and restoring once leaves the first request pending for the lifecycle worker,
  which can still cut access and delete the tenant. A tenant that took its latest request back can
  be deleted by two later passes if and only if another one is pending (`RestoreShields`,
  `CancelTwiceRestoreOnce`).
- The platform administrator's restoring makes a tenant active that has cancelled twice, and the
  worker deletes it a week later for the other request; it is shielded if and only if no other request
  is pending (`AdminRestoreShields`, `RestoredThenDeleted`).
- The administrator's deletion asks for an inactive tenant and for no cancellation, and every tenant
  that has not cancelled can be made inactive (`DeletedWithoutRequest`).
- One pass of the worker can cut access and delete at once. It does if and only if, before the
  first request it deletes the tenant for, there is a pending one due to be stamped; a tenant that
  cancels twice and cuts off access meets that (`StampsAndDeletesExactly`,
  `StampsOneDeletesForAnother`, `PassOfTheNinth`).
- Buying a monthly plan and upgrading the same day may credit the running month
  (`PurchaseDayCredit`, `MonthlyPurchaseDayCounterexample`).
- The limiter admits up to `2 * limit - 1` failures in a window's length after a reset and
  `2 * limit - 2` otherwise, and these are attained.
- The tax number's check digit misses an exchange of neighbours exactly when the two digits are
  equal modulo five; dropping the `HU` prefix never changes the digits read.
- The layout parser's test for a distance of nine points between words never decides anything, since
  a blank is already due whenever there is a word before (`JoinWordTokens`).
- The chunker's header promises paragraph boundaries, but all newlines are removed first, so none
  is ever found; the model follows the code.

## Model

| member | source | states |
|---|---|---|
| LedgerRuns.RunSound | backend/apps/billing/service.py:1770-2537 | of the runs from sign-up of all modelled steps, exactly those are sound throughout whose immediate plan changes all leave the paid-until date, or find no debt and move it later than all dates billed; in these no step meets the uniqueness constraint |
| LedgerRuns.PermittedSound | backend/apps/billing/service.py:1770-2537 | with such plan changes the ledger after the run is sound and the last step at most rejects its arguments |
| LedgerRuns.OneInvoicePerPeriod | backend/apps/billing/models.py:106 | after every run one monthly invoice per key over both kinds, so that changing the kind of any row cannot conflict; at most one unpaid, keyed by the paid-until date, and it is the debt every payment path finds |
| LedgerRuns.BillsFormAChain | backend/apps/billing/service.py:720-729 | after every such run each bill starts where coverage ended and is later than all bills before it, so that no period is billed twice or skipped; it has its paid invoice unless the tenant was deleted, and all its invoices with it |
| LedgerRuns.EveryPaidInvoiceIsABill | backend/apps/billing/service.py:1927-2010 | conversely every paid date-keyed invoice is one of those bills and lies before the paid-until date |
| LedgerRuns.StepSound | backend/apps/billing/service.py:1770-2537 | one step: a sound ledger stays sound, the renewal steps never raise, the others only reject their arguments |
| LedgerInvariant.DueCycleSound | backend/apps/billing/workflows.py:145-173 | renewal, synchronisation and invoicing keep one invoice per period whatever the state before |
| LedgerInvariant.DailyRetrySound | backend/apps/billing/service.py:2422-2478 | the retry, whether paid or refused, keeps the ledger sound and never conflicts when it changes a row's kind |
| LedgerInvariant.SettleSubscriptionSound | backend/apps/billing/service.py:2064-2141 | the owner's settlement, of a debt or in advance, accepted or not, keeps the ledger sound |
| LedgerInvariant.SimulatePaymentSound | backend/apps/billing/service.py:2539-2600 | the simulated payment keeps the ledger sound |
| LedgerInvariant.SettleDebtSound | backend/apps/billing/service.py:2358-2392 | settling the debt pays exactly the period at the paid-until date and moves on by one period |
| LedgerInvariant.MoveSound | backend/apps/billing/service.py:1466-1498 | an immediate plan change keeps the ledger sound if and only if the date stays, or there is no debt and the new date is later than all billed |
| LedgerInvariant.LastBilledIsLast | backend/apps/billing/service.py:720-729 | the last bill of a sound history is the latest date billed |
| LedgerInvariant.NoDebtNoInvoice | backend/apps/billing/repositories.py:587-624 | in a sound ledger the debt search finds nothing only if nothing is unpaid, and then no invoice has the current key |
| LedgerRows.StepEvolves | backend/apps/billing/repositories.py:562-584 | every step leaves paid rows untouched and others' key, amount, issue and due moments; new rows are well formed; only the retry charges |
| LedgerRows.PaidForever | backend/apps/billing/repositories.py:562-584 | over any continuation of any run, as long as the tenant is not deleted, no row disappears, a paid row is never changed again and no row's key, amount or dates change; with the tenant all rows go for good |
| LedgerRows.RequestsNameNextDate | backend/apps/billing/service.py:2480-2537 | in every run every request's next date is its key plus the months it charges for |
| LedgerRetry.RetryBound | backend/apps/billing/service.py:2422-2478 | in every run in which no retry raises and the clock never goes back, no invoice is charged twice on a day, and each is charged only from its issue until less than thirty days after its due date, at most once for each of those days (for a request, at most thirty times), however often cycle and retry run |
| LedgerRetry.PermittedRetriesPass | backend/apps/billing/service.py:2422-2478 | no retry raises in a run whose plan changes are those of `RunSound` |
| LedgerRetry.RetryRaisesExactly | backend/apps/billing/service.py:2358-2365 | a retry raises if and only if it applies and another row has the debt's key and the kind the debt is given |
| LedgerRetry.RaisedRetryRepeats | backend/apps/billing/service.py:2454-2478 | such a retry repeated on one day charges every time and changes nothing else |
| LedgerRetry.StepRetryOk | backend/apps/billing/service.py:2338-2356 | every step keeps: retry marks and charges in the past, an unpaid row marked no earlier than its last charge, charge days rising |
| LedgerRetry.RisingDaysFew | backend/apps/billing/service.py:2422-2478 | strictly rising days inside a window of n days are at most n |
| LedgerBilling.OnlyPaymentsExtend | backend/apps/billing/service.py:2358-2386 | of all steps but plan changes exactly the successful payments extend coverage, by the period the payment is settled with, from where coverage ended |
| LedgerOutcomes.PlanAfterPayment | backend/apps/billing/service.py:1984-1995 | every payment that goes through takes the scheduled plan and period over, due or not, keeps the current ones where none is scheduled, and leaves nothing scheduled; the extra storage is that beyond the plan in force before it, or after a due change without debt |
| LedgerOutcomes.SettledRows | backend/apps/billing/service.py:2358-2366 | settling a debt makes its row a paid one of the monthly kind and touches no other, and no debt is left |
| LedgerOutcomes.SettledStatus | backend/apps/billing/service.py:2358-2392 | after a settled debt only a cancellation in force or an ended free plan restricts, the free plan is in trial otherwise, and access is off only for a cancellation in effect for a week |
| LedgerOutcomes.AdvanceInvoiced | backend/apps/billing/service.py:1951-1983 | paid in advance, one row is added: paid, keyed by the paid-until date, dated now, for the price of the coming period and naming the date the period in force reaches |
| LedgerOutcomes.AdvanceRefused | backend/apps/billing/service.py:2012-2062 | refused in advance, one failed row is added, due when coverage ends, and nothing else changes but a due change of the plan |
| LedgerOutcomes.DebtRefused | backend/apps/billing/service.py:2097-2120 | a refused debt takes the failed status and kind and keeps its line, and the status is synchronised |
| LedgerOutcomes.SimulationRefused | backend/apps/billing/service.py:2572-2600 | a refused simulation does the same and writes the day as the retry mark |
| LedgerOutcomes.AskedExactly | backend/apps/billing/service.py:434-442 | the gateway is asked for the debt as invoiced, and without one for the price of the coming period: the monthly charge of the plan and period that take over and five currency units for each further knowledge base and gigabyte, for every month |
| LedgerOutcomes.RetryCharges | backend/apps/billing/service.py:2422-2478 | the retry charges an unpaid row of a present and active tenant that fell due less than thirty days ago and is not marked with the day; accepted, the row is paid, refused, it is failed and marked with the day; no other row changes |
| LedgerOutcomes.RetrySkips | backend/apps/billing/service.py:2432-2453 | without such a row the retry changes nothing |
| LedgerOutcomes.RetryRefused | backend/apps/billing/service.py:2454-2478 | a refused retry synchronises the status if the row was an open request, and not otherwise |
| LedgerBilling.RequestsHaveOneTariff | backend/apps/billing/service.py:2480-2537 | when the cycle issues a request no change is pending; plan, period, unit price, amount and next date belong together; coverage has run out and there is no debt |
| LedgerBilling.RequestIssuedExactly | backend/apps/billing/workflows.py:145-173 | the cycle issues a request if and only if the tenant is active, on a paid plan, not cancelled, due, without debt, and the price is positive |
| LedgerOutcomes.RequestInvoiced | backend/apps/billing/service.py:2480-2537 | the request the cycle adds is open, due at once, of the plan and period in force, for the price of the coming period |
| LedgerOutcomes.InForceExactly | backend/apps/billing/service.py:1770-1811 | the plan, period and status in force are the scheduled ones once the paid period is over and not before; the free plan then starts as a trial |
| LedgerOutcomes.DueChangeExactly | backend/apps/billing/service.py:1770-1811 | the cycle takes a scheduled change over when the paid period is over, and not before, and never moves the paid-until date |
| LedgerBilling.ChargedVersusGranted | backend/apps/billing/service.py:683-714 | paid in advance, the invoice is for the plan in force after a due change, and months charged equal months granted if and only if no change is pending, it is due, or its period is the current one |
| LedgerBilling.AskedVersusInvoiced | backend/apps/billing/service.py:2119-2136 | the gateway is asked for the invoiced amount if and only if the extra storage read for the plan before equals the one read again for the plan after a due change |
| LedgerExamples.AskedLessThanInvoiced | backend/apps/billing/service.py:434-442 | a run in which the gateway is asked for less than the invoice says |
| LedgerExamples.ChargedOneGrantedTwelve | backend/apps/billing/service.py:683-714 | a run in which one month is charged and twelve are granted |
| LedgerBilling.SettledAsWritten | backend/apps/billing/service.py:2358-2386 | a request is settled up to the next date it names if and only if the period in force is the one it was issued for |
| LedgerOutcomes.ChoiceWaits | backend/apps/billing/service.py:1814-1845 | a step down (a plan that costs or includes less, or fewer months of the same one) is noted for the end of the paid period and changes nothing else |
| LedgerOutcomes.ChoiceChecksOut | backend/apps/billing/service.py:1846-1893 | leaving the free plan starts coverage today and writes one paid checkout invoice, of the monthly charge times the months of the period |
| LedgerOutcomes.ChoiceElse | backend/apps/billing/service.py:1814-1845 | an unknown plan, and it alone, is rejected; a change to a free plan that is no step down starts a trial; a change between paid plans clears the paid-until date |
| LedgerOutcomes.UpgradeExactly | backend/apps/billing/service.py:1650-1768 | an upgrade is refused from the free plan, to an unknown one and to one that costs or includes less, does nothing for the plan and period there are, and otherwise starts coverage today |
| LedgerExamples.ChargedTwelveGrantedOne | backend/apps/billing/service.py:1770-1811 | a run of nightly jobs in which twelve months are charged and one is granted |
| LedgerExamples.ChangeOverOpenRequest | backend/apps/billing/service.py:1483-1496 | a run of nightly jobs in which a plan change leaves an open request keyed by a date that is no longer the paid-until date |
| LedgerRebilled.MovedBack | backend/apps/billing/service.py:1466-1498 | a plan change without debt to a date already billed leaves the period at the paid-until date with its invoice already there |
| LedgerRebilled.NeverBilledAgain | backend/apps/billing/service.py:2480-2500 | from there, without payments and plan changes by the owner, no invoice and no charge is ever added and the plan is kept |
| LedgerRebilled.PaidWithoutInvoice | backend/apps/billing/service.py:1951-1995 | from there an accepted payment extends coverage and adds no invoice |
| LedgerRebilled.ChargedWithoutBound | backend/apps/billing/service.py:2358-2365 | from there, after a refused payment, accepted retries charge any number of times on one day |
| LedgerExamples.UpgradedForNothing | backend/apps/billing/service.py:1483-1496 | a run after which a tenant keeps the better plan with one invoice for the basic one, for ever |
| LedgerExamples.ChargedEachTime | backend/apps/billing/service.py:2454-2478 | a run with any number of charges on one day |
| LedgerStatus.SyncConverges | backend/apps/billing/workflows.py:64-131 | at one instant, with stamps that do not go back, a third synchronisation changes nothing |
| LedgerStatus.RestrictedExactly | backend/apps/billing/workflows.py:29-42 | at that fixed point of any run's ledger the status is restricted if and only if a cancellation is in force, a failed payment is overdue and unanswered, or a trial has ended |
| LedgerOutcomes.SyncedStatus | backend/apps/billing/workflows.py:29-42 | after one synchronisation of any sound ledger: restricted if and only if a cancellation is in force, a failed payment overdue and unanswered, or a trial ended; in trial if and only if on the free plan before its end and neither of the first two; active if and only if not on the free plan and neither |
| LedgerOutcomes.StatusExactly | backend/apps/billing/workflows.py:29-42 | the same for every ledger in terms of the search for an overdue invoice, and what is written of the subscription: the status, and the stamp with another status only |
| LedgerOutcomes.StampExactly | backend/apps/billing/workflows.py:64-76 | a synchronisation stamps the latest request if it has been in effect for seven days, and no other |
| LedgerOutcomes.AccessExactly | backend/apps/billing/workflows.py:64-131 | a synchronisation switches the tenant off if and only if the latest request has been in effect for seven days or an overdue failed payment was due thirty days ago |
| LedgerStatus.DebtRestrictionFades | backend/apps/billing/workflows.py:108-131 | a restriction for debt alone survives the next synchronisation if and only if the invoice is not older than the stamp |
| LedgerExamples.RestrictionFadesInARun | backend/apps/billing/workflows.py:108-131 | a run in which a tenant restricted for a refused payment is active again after the next synchronisation, the debt unpaid |
| LedgerStatus.OverdueMeaning | backend/apps/billing/workflows.py:78-117 | in a sound ledger the two searches for a failed invoice find it exactly when one is overdue, not older than the last write and not followed by a paid one |
| LedgerStatus.LatestIsLatest | backend/apps/billing/repositories.py:534-545 | no selected invoice was issued later than the one the search returns |
| LedgerStatus.LatestCancellationIs | backend/apps/billing/repositories.py:147-155 | the latest request is the one no other was made after, ties broken by id |
| Ledger.LatestSelects | backend/apps/billing/repositories.py:534-560 | the latest row of a selection satisfies it, and none is found only if no row does |
| Cancellations.DeletionExactly | backend/apps/billing/service.py:983-1039 | a pass deletes the tenant if and only if a pending request was stamped before the pass at least seven days ago and its schema can be dropped when its turn comes |
| Cancellations.PassRequests | backend/apps/billing/service.py:983-1039 | every pending request is processed as it stood before the pass until a deletion ends it, and no other request is touched |
| CancellationOutcomes.NoticesExactly | backend/apps/billing/service.py:983-1039 | a pass that reaches a pending request records the two-day notice if and only if the effective date is two days off, the one-day notice if one, the last one from the effective moment on, each where owner and mail answer and none is recorded; and stamps it if seven days have passed |
| CancellationOutcomes.OthersUntouched | backend/apps/billing/service.py:983-1039 | no other request is touched, and none added or lost |
| CancellationOutcomes.EndedExactly | backend/apps/billing/service.py:1020-1039 | the tenant is gone after a pass if and only if some pending request was stamped seven days ago or more and its schema can be dropped |
| CancellationOutcomes.AccessAfterPass | backend/apps/billing/service.py:1013-1017 | access is cut by a pass if and only if it stamps a request |
| CancellationOutcomes.DaysAreCounted | backend/apps/billing/service.py:990-994 | the days between two dates are counted along the calendar: none to the same, one to the next |
| CancellationOutcomes.OwnerExactly | backend/apps/billing/service.py:886-961 | taking back and cutting access look at the latest request alone, and what each writes or rejects |
| CancellationOutcomes.WithoutRequests | backend/apps/billing/service.py:886-961 | without any request taking back does nothing, cutting access and the administrator's restoring are rejected |
| CancellationOutcomes.CancelledExactly | backend/apps/billing/service.py:851-884 | a request with a valid reason is added, to take effect at the beginning of the day after the paid-until date |
| CancellationOutcomes.AdminExactly | backend/admin/repository/platform_admin_repository.py:581-670 | what the administrator's restoring, switching on, switching off and deleting ask for and do, in terms of the latest request |
| Cancellations.StampsAndDeletesExactly | backend/apps/billing/service.py:983-1039 | a pass both stamps a request and deletes the tenant if and only if, before the first request it deletes for, there is a pending one due to be stamped |
| CancellationRuns.StampsOneDeletesForAnother | backend/apps/billing/service.py:851-884 | a tenant that cancels twice and cuts off access is stamped for the first request and deleted for the second in one pass |
| CancellationRuns.PassOfTheNinth | backend/apps/billing/service.py:983-1039 | the same for a tenant paid until 1 June 2026, on 9 June |
| Cancellations.RestoreShields | backend/apps/billing/service.py:886-920 | taking the latest request back keeps the worker away for ever if and only if it was the only pending one; otherwise, and only otherwise, two passes can delete the tenant |
| CancellationRuns.RestoreShieldsInRuns | backend/apps/billing/service.py:886-920 | the same for the state after any run from sign-up, with nothing asked of the requests |
| Cancellations.AdminRestoreShields | backend/admin/repository/platform_admin_repository.py:581-613 | the administrator's restoring makes the tenant active and not cancelled for billing, and keeps the worker away for ever if and only if no other request was pending; otherwise two passes can delete the tenant |
| CancellationRuns.AdminRestoreShieldsInRuns | backend/admin/repository/platform_admin_repository.py:581-613 | the same for the state after any run from sign-up |
| CancellationRuns.RestoredThenDeleted | backend/apps/billing/service.py:983-1039 | a run in which the administrator restores a tenant and the worker deletes it a week later |
| CancellationRuns.DeletedWithoutRequest | backend/admin/repository/platform_admin_repository.py:649-670 | a run in which a tenant without any request is deleted by the administrator |
| Cancellations.CancelTwiceRestoreOnce | backend/apps/billing/service.py:851-920 | two requests and one restore: no longer cancelled for billing, yet two passes of the worker delete the tenant |
| CancellationRuns.DeletionStory | backend/apps/billing/service.py:983-1039 | in every run a tenant is deleted by the administrator while it is inactive, or by the worker, for a request never restored, made and stamped by earlier steps, at least seven days after the stamp; and fourteen after the day it took effect unless the owner cut access himself |
| CancellationRuns.WrittenOnce | backend/apps/billing/repositories.py:170-292 | over any continuation, as long as the tenant is not deleted, notices and stamps are recorded at most once, restored requests stay as they were restored, and stamped ones are restored by the administrator only; with the tenant all requests go |
| CancellationRuns.RestoreOrigin | backend/admin/repository/platform_admin_repository.py:581-613 | a stamped request that is no longer in force was restored by a step of the administrator's that found the tenant inactive |
| CancellationRuns.StampOrigin | backend/apps/billing/workflows.py:66-76 | every stamp was set by one step of the run, at least seven days after the effective date unless by the owner's own deletion |
| CancellationRuns.NoticesInTime | backend/apps/billing/service.py:995-1026 | in every run each recorded notice carries the moment of a pass that ran exactly two days, or one day, before the effective date, or after the effective moment |
| CancellationRuns.StepRequests | backend/apps/billing/repositories.py:170-292 | what any step, billing and administration included, may do to the requests: who stamps them, who restores them |
| CancellationRuns.RequestsInOrder | backend/apps/billing/repositories.py:157-168 | with a clock that never goes back the table lists the requests in the order of the worker's query |
| BillingRepository.Repository.UpdateInvoicePaymentStatus | backend/apps/billing/repositories.py:562-584 | the row of one tenant changes as the specification says or the constraint is met; other tenants stay as they are |
| BillingRepository.Repository.RestoreLatestCancellation | backend/apps/billing/repositories.py:260-292 | restores the latest request still in force unless it is stamped, also for a tenant whose latest request of all is already restored |
| BillingRepository.LatestIsInForce | backend/apps/billing/repositories.py:260-292 | while the latest request of all is in force it is the one that is restored |
| BillingRepository.LatestInForceIs | backend/apps/billing/repositories.py:260-292 | no request in force was made after the one found, and where there is one in force one is found |
| BillingRepository.ListedDistinct | backend/apps/billing/repositories.py:660-668 | a listing of distinct rows names no tenant twice |
| BillingService.Service.FindOverdue | backend/apps/billing/workflows.py:78-117 | the reassignments of the candidate end with the overdue debt of the specification |
| BillingService.Service.SyncStatus | backend/apps/billing/workflows.py:64-131 | the statements together have the specified effect on the tenant and none on the others |
| BillingService.Service.AssertNotRestricted | backend/apps/billing/workflows.py:133-137 | takes the synchronisation step and allows exactly what is not restricted after it |
| BillingService.Service.ProcessTenant | backend/apps/billing/workflows.py:183-213 | the three use cases in order are the due cycle step |
| BillingService.Service.RetryTenant | backend/apps/billing/service.py:2422-2478 | one tenant's retry, with its early exits, refines the specified one |
| BillingService.Service.SettleSubscription | backend/apps/billing/service.py:2064-2141 | refines the owner's settlement and names the amount the gateway is asked for |
| BillingService.Service.SimulateTenant | backend/apps/billing/service.py:2539-2600 | refines the simulated payment |
| BillingService.Service.UpdateSubscription | backend/apps/billing/service.py:1814-1895 | refines the owner's choice of a plan: scheduled, immediate or checkout |
| TenantAdmin.Admin.RestoreCancelledTenant | backend/admin/repository/platform_admin_repository.py:581-613 | refines the administrator's restoring: an inactive tenant with a request in force, stamped or not |
| TenantAdmin.Admin.PermanentlyDeleteCancelledTenant | backend/admin/repository/platform_admin_repository.py:649-670 | refines the administrator's deletion: its one condition is that the tenant is inactive |
| BillingJobs.Worker.ProcessCycles | backend/apps/billing/workflows.py:183-213 | every tenant takes exactly its cycle step, an exception in one leaves the others alone |
| BillingJobs.Worker.RetryFailedPaymentsDaily | backend/apps/billing/service.py:2422-2478 | every tenant takes exactly its retry step, and the metrics count the outcomes and the mails sent |
| BillingJobs.TallyAddsUp | backend/apps/billing/service.py:2426-2478 | paid, failed and skipped count the listed tenants; mails go out for refused charges only, for all of them if the mail server accepts; with sound ledgers every charge is paid or failed |
| BillingJobs.TallyExactly | backend/apps/billing/service.py:2426-2478 | with sound ledgers the metrics count as paid the listed tenants with a debt to be charged whose payment is accepted, as failed those whose payment is not, and as skipped all others |
| BillingJobs.Worker.SimulateOpenInvoicePayments | backend/apps/billing/service.py:2539-2621 | every tenant takes its simulation step; the report has an entry for each one processed, and processed and skipped count the tenants |
| BillingJobs.ReportIsTheDebtors | backend/apps/billing/service.py:2539-2621 | with sound ledgers the report has one entry for each listed tenant in debt, names its debt, and of a failed one whether the mail was accepted |
| BillingJobs.Worker.ProcessPendingRequest | backend/apps/billing/service.py:983-1039 | the statements for one request have the specified effect; its metrics are the notices and stamps recorded and the deletion |
| BillingJobs.Worker.ProcessCancellationLifecycle | backend/apps/billing/service.py:983-1039 | every tenant takes exactly its lifecycle step, with an answer of mail server and schema drop for each request, and the metrics are the differences it made |
| BillingJobs.TotalsCounted | backend/apps/billing/service.py:987-1039 | what those metrics count: the requests with each of the three notices, and those with a stamp |
| BillingJobs.Worker.ProcessDueCycles | backend/apps/billing/service.py:2326-2329 | the nightly job is, for every tenant, the run of lifecycle, cycle and retry |
| BillingJobs.SweepSound | backend/apps/billing/service.py:2326-2329 | a sweep keeps the ledgers of all tenants sound |
| Calendar.AddMonthsAgree | backend/admin/repository/platform_admin_repository.py:1519-1525 | the two implementations of month addition agree on every date and count |
| Calendar.AddMonthsLands | backend/apps/billing/calculations.py:52-60 | the result is an existing date in the month that many months on, on the day or the last of the month |
| Calendar.AddMonthsStrictInCount | backend/apps/billing/calculations.py:57-60 | strictly later for a greater count |
| Calendar.AddMonthsMonotone | backend/apps/billing/calculations.py:57-60 | never earlier for a later date |
| Calendar.AddThenSubtract | backend/apps/billing/calculations.py:57-60 | there and back stays in the month, never later, exact if and only if the day was not clamped |
| Calendar.DayNumberOrders | backend/apps/billing/calculations.py:29-30 | day ordinals order existing dates as the calendar does |
| Calendar.NextDayNumber | backend/apps/billing/calculations.py:33-37 | stepping a day adds one to the ordinal, over month and leap-year ends |
| BillingPeriods.FindFifthBusinessDay | backend/apps/billing/calculations.py:33-37 | the loop stops on the first weekday on or after the 5th, by the 7th |
| BillingPeriods.PeriodContainsToday | backend/apps/billing/calculations.py:63-79 | the returned bounds contain the day; each is the first weekday from the 5th on of its month, and so is the date due this month |
| BillingPeriods.PeriodMembership | backend/apps/billing/calculations.py:63-79 | a day gets a key if and only if it lies within that key's bounds |
| BillingPeriods.PeriodsAreConsecutive | backend/apps/billing/calculations.py:63-79 | each period's end is the start of the next key's period |
| BillingPeriods.PeriodsPartition | backend/apps/billing/calculations.py:63-79 | equal keys mean equal bounds, different keys disjoint periods |
| Pricing.MonthlyChargeExactly | backend/apps/billing/calculations.py:91-100 | the charge is the one amount of whole currency units at most half a cent above the discounted price and less than one unit below that; 93 percent for quarterly and 85 for yearly payers |
| Pricing.MonthlyChargeMonotone | backend/apps/billing/calculations.py:91-100 | a dearer plan never charges less |
| Proration.CountRemainingPrepaidMonths | backend/apps/billing/subscription_proration.py:112-136 | the early-exit loop returns the plain count of units not yet started, between zero and the prepaid months |
| Proration.RemainingNeverRises | backend/apps/billing/subscription_proration.py:112-136 | never rises as the day advances |
| Proration.RemainingDropsAtUnitStart | backend/apps/billing/subscription_proration.py:127-136 | in the k-th unit exactly the units after it remain |
| Proration.CoverageEndExitIsRedundant | backend/apps/billing/subscription_proration.py:124-126 | after the coverage end the count is zero without the separate exit |
| Proration.CreditNeverExceedsPrepaid | backend/apps/billing/subscription_proration.py:139-199 | the credit is whole old months, between zero and what was prepaid, none after the coverage end, and taken off the new charge down to zero |
| Proration.OfferExactly | backend/apps/billing/subscription_proration.py:156-179 | every amount and date of an offer: old and new monthly charge, the months of the coverage that begin after today, the credit for them, the price of the new period, what is left to pay of it after the credit, and the date the new months reach |
| Proration.OfferMadeExactly | backend/apps/billing/subscription_proration.py:148-153 | an offer is made if and only if the plan is known, costs and includes no less, and is not the plan and period there are |
| Proration.PurchaseDayCredit | backend/apps/billing/subscription_proration.py:71-85 | upgrading on the purchase day credits all months but the running one if and only if the usage period does not outlast the paid one |
| Proration.PurchaseDayOfferCredit | backend/apps/billing/subscription_proration.py:139-199 | in cents: the offer credits all monthly charges but one if and only if the usage period does not outlast the paid one or the old plan is free |
| Proration.LongPurchaseDayCredit | backend/apps/billing/subscription_proration.py:156-171 | for quarterly and yearly plans the offer made on the purchase day credits all monthly charges but one, on every calendar day |
| Proration.MonthlyPurchaseDayCounterexample | backend/apps/billing/subscription_proration.py:71-74 | a monthly plan bought on 5 March 2026 is credited its running month |
| MfaLimiter.RateBound | backend/admin/repository/platform_admin_repository.py:463-517 | with lock at least window and a clock that does not go back, any stretch as long as the window counts at most twice the limit less one failures (less two if never reset and the limit is above one) |
| MfaLimiter.BoundAttainedAfterReset | backend/admin/repository/platform_admin_repository.py:463-517 | the bound after a reset is attained |
| MfaLimiter.BoundAttainedUntouched | backend/admin/repository/platform_admin_repository.py:463-517 | the bound without a reset is attained |
| MfaLimiter.RecordRefines | backend/admin/repository/platform_admin_repository.py:481-517 | recording keeps the counter equal to the failures counted since the window opened |
| MfaService.PlatformAdminMfa.RecordFailedAttempt | backend/admin/repository/platform_admin_repository.py:463-517 | counts one failure for one scope, in the running window or a new one, and locks it for the lock time if and only if the failures since the window opened reach the setting for its own kind; while locked counter and window stay |
| MfaService.PlatformAdminMfa.ResetAttempts | backend/admin/repository/platform_admin_repository.py:519-548 | the listed scopes, and no others, start anew |
| MfaService.PlatformAdminMfa.EnsureNotBlocked | backend/admin/service/platform_admin_service.py:149-152 | passes if and only if neither the user's nor the address's scope is locked |
| MfaService.PlatformAdminMfa.RecordFailure | backend/admin/service/platform_admin_service.py:128-168 | both scopes count the failure, the user's locks at the limit per user and the address's at the limit per address, of one-time or of recovery codes, and the result says whether either is locked |
| MfaService.PlatformAdminMfa.Login | backend/admin/service/platform_admin_service.py:346-367 | a code of eight characters or more, as read, is a recovery code; locked scopes reject without checking it; a wrong one counts for exactly the two scopes of its kind, each under its own setting; a right one clears all four; no other scope changes |
| MfaService.SpellingIsFree | backend/admin/service/platform_admin_service.py:95-97 | a code is read piece by piece, a letter or digit in upper case and any other character not at all; where upper case reads as itself, as within ASCII, the code as read reads the same again |
| MfaService.AddressExactly | backend/admin/service/platform_admin_service.py:115-117 | the address's key is what is given without blanks around it, cut at 64 characters, or "unknown" where nothing is |
| MfaService.AsciiSettled | backend/admin/service/platform_admin_service.py:95-97 | within ASCII what is in upper case reads as itself |
| MfaService.RecordKeepsAll | backend/admin/service/platform_admin_service.py:154-168 | every scope's row keeps refining its history |
| MfaService.AllKeptMeans | backend/admin/repository/platform_admin_repository.py:446-517 | for every scope with a row the class invariant means: the stored counter is the number of failures since the window opened, the scope is locked exactly at the setting for its own kind, the rate is bounded |
| AuditCursor.CursorRoundTrip | backend/admin/repository/platform_admin_repository.py:1202-1220 | decoding inverts encoding for every moment and id |
| AuditCursor.IsoRoundTrip | backend/admin/repository/platform_admin_repository.py:1202-1220 | the timestamp text reads back as the same moment |
| AuditCursor.PayloadRoundTrip | backend/admin/repository/platform_admin_repository.py:1202-1220 | the JSON text reads back as the same pair |
| AuditCursor.Base64RoundTrip | backend/admin/repository/platform_admin_repository.py:1202-1220 | the URL-safe encoding with padding is inverted for all byte sequences |
| AuditCursor.Base64Groups | backend/admin/repository/platform_admin_repository.py:1202-1207 | each three bytes are one number written with four letters, most significant first; missing bytes count as zero and letters for them alone are padding |
| AuditCursor.IsoExactly | backend/admin/repository/platform_admin_repository.py:1202-1207 | the fields of the timestamp text in order, each of fixed width in decimal, the fraction only where it is not zero, and the UTC offset |
| AuditCursor.PayloadText | backend/admin/repository/platform_admin_repository.py:1202-1207 | the JSON text around the timestamp and the id |
| AuditTrail.ListTenantAuditTrail | backend/admin/repository/platform_admin_repository.py:1257-1340 | a page's items and its next cursor, as text that decodes to where the next page starts |
| AuditTrail.CollectPages | backend/admin/repository/platform_admin_repository.py:1257-1340 | following the cursors ends, for any limit, with exactly the untruncated listing and after as many pages as it fills |
| AuditTrail.PageAt | backend/admin/repository/platform_admin_repository.py:1268-1340 | a page holds the next rows of the listing: fifty for a limit of zero, one below that, two hundred at most and the limit itself in between; a cursor comes with it if and only if rows are left, and resumes behind it |
| AuditTrail.QueryResumes | backend/admin/repository/platform_admin_repository.py:1238-1255 | the cursor's condition selects exactly what follows that row in the listing |
| AuditTrail.ListingIsComplete | backend/admin/repository/platform_admin_repository.py:1257-1340 | the listing has every matching row once, newest first, ties by descending id |
| AuditTrail.ExportIsPrefix | backend/admin/repository/platform_admin_repository.py:1342-1418 | the export is the beginning of the same listing: fifty thousand rows for a limit of zero, one below that, fifty thousand at most |
| Spans.DeduplicateMatchesLongerWins | backend/shared/text/span_utils.py:10-25 | the loop computes the specified greedy selection |
| Spans.KeptSpans | backend/shared/text/span_utils.py:10-25 | spans of the input, by start, any two lying apart; and every span is kept or overlaps a kept one that is longer, or as long and begins no later |
| Spans.ThirdOfAnyChoice | backend/shared/text/span_utils.py:16-25 | the kept length is at least a third of that of any disjoint choice from the input |
| Spans.OrderDoesNotMatter | backend/shared/text/span_utils.py:16-25 | reordering the input keeps the same extents |
| Spans.FirstOfEqualsKept | backend/shared/text/span_utils.py:16-25 | of matches with one extent the first in the input is the one that is kept, whatever type and value the others have |
| Chunking.ChunkTextForTraining | backend/shared/text/chunking.py:10-44 | the nested loops compute the specified chunks for any limit: zero raises unless the text is blank, a negative one gives none |
| Chunking.ChunksConserveText | backend/shared/text/chunking.py:15-42 | before short chunks are dropped every chunk fits and the chunks laid out in order are the normalised text |
| Chunking.ChunksOptimal | backend/shared/text/chunking.py:24-42 | when every sentence fits, joining the chunks gives the normalised text and no in-order grouping of that size has fewer chunks |
| Chunking.PiecesExactly | backend/shared/text/chunking.py:18-42 | the chunks are those of the one grouping of the sentences in which each group fits, none could take in the sentence after it, and a sentence too long is alone and sliced |
| Chunking.SentencesExactly | backend/shared/text/chunking.py:18-20 | joined by blanks the sentences are the text; every one but the last ends in a full stop, exclamation or question mark, and none has such a mark before a blank inside |
| Chunking.SlicesExactly | backend/shared/text/chunking.py:36-39 | the slices of a long sentence are of full length but the last, and put together are the sentence |
| Chunking.WordsExactly | backend/shared/text/chunking.py:10-13 | white space separates words and is no part of them, and nothing else does |
| Whitespace.SpacesAre | backend/shared/text/chunking.py:11 | which characters are white space |
| Whitespace.StripExactly | backend/shared/text/chunking.py:44 | stripping cuts off exactly the white space at both ends |
| Chunking.LongEnoughExactly | backend/shared/text/chunking.py:44 | of the chunks those of more than twenty characters are kept, in order |
| Chunking.NormalizedIsTidy | backend/shared/text/chunking.py:11-17 | normalised text has single inner blanks only, so no paragraph break is left to find |
| InlineText.NormalizeKeepsInk | backend/shared/documents/pdf_layout_parser.py:46-50 | putting a text in order loses and moves no printed character, and empties a text only if it was blank |
| InlineText.NeatIsNormal | backend/shared/documents/pdf_layout_parser.py:46-50 | a text stays as it is if and only if it has single inner blanks, none before closing punctuation or after an opening bracket; normalising twice is normalising once |
| InlineSpacing.NormalizeExactly | backend/shared/documents/pdf_layout_parser.py:46-50 | the three substitutions amount to one pass: the printed characters as they come, with a blank between two exactly where the text has one, the second is no closing punctuation and the first no opening bracket |
| InlineSpacing.JoinedExactly | backend/shared/documents/pdf_layout_parser.py:147-164 | the text of a row of words is their texts with a blank between any two, put in order in that way |
| PdfLayout.JoinWordTokens | backend/shared/documents/pdf_layout_parser.py:147-164 | the loop gives the tokens side by side, put in order; the distance between words never decides |
| PdfLayout.JoinedInk | backend/shared/documents/pdf_layout_parser.py:147-164 | the text prints exactly what the words print, in order, and is empty only if that is nothing |
| PdfLayout.GroupWordsIntoLines | backend/shared/documents/pdf_layout_parser.py:343-392 | one line for each group of words with a text, with its text, wide gaps and cells |
| PdfLayout.LinesAreGroups | backend/shared/documents/pdf_layout_parser.py:347-363 | the groups are the words in reading order, cut exactly where the height test fails; no word is lost |
| PdfOutcomes.ReadInOrder | backend/shared/documents/pdf_layout_parser.py:347 | a page is read by height rounded to a tenth, and of one such height from left to right |
| PdfOutcomes.TenthExactly | backend/shared/documents/pdf_layout_parser.py:347 | the rounding is to the nearest tenth, of two the even one |
| PdfOutcomes.LinesCutExactly | backend/shared/documents/pdf_layout_parser.py:352-363 | within a line every word is within three points of the height of those before it, and the first word of the next line is not |
| PdfOutcomes.HeightExactly | backend/shared/documents/pdf_layout_parser.py:356 | that height is their mean, in which each word weighs as much as all before it together |
| PdfLayout.PageIsPrinted | backend/shared/documents/pdf_layout_parser.py:343-392 | the lines of a page print exactly what its words print, in reading order |
| PdfLayout.SplitWordsIntoCells | backend/shared/documents/pdf_layout_parser.py:182-202 | the texts of the non-blank tokens cut at the wide gaps |
| PdfLayout.EachCellHasText | backend/shared/documents/pdf_layout_parser.py:198-202 | no cell is dropped for want of a text |
| PdfLayout.CellsPrint | backend/shared/documents/pdf_layout_parser.py:182-202 | the cells of a line print exactly what its words print |
| PdfLayout.MeasureWordGaps | backend/shared/documents/pdf_layout_parser.py:167-179 | the number of wide gaps and the widest gap |
| PdfLayout.CellsAreGroups | backend/shared/documents/pdf_layout_parser.py:182-197 | the cells concatenate to the tokens and are one more than their wide gaps |
| PdfOutcomes.CellsCutExactly | backend/shared/documents/pdf_layout_parser.py:182-197 | the tokens are cut exactly where the next begins twenty-eight points or more to the right of one's right edge, or left edge where no right one is recorded |
| PdfOutcomes.GapsCounted | backend/shared/documents/pdf_layout_parser.py:167-179 | the wide gaps counted are the places where neighbours are that far apart |
| PdfLayout.CellsAndGapsAgree | backend/shared/documents/pdf_layout_parser.py:373-374 | for a line of non-blank tokens the two separate walks agree: one cell more than wide gaps, and the cells print the tokens |
| PdfBlocks.GroupLinesIntoBlocks | backend/shared/documents/pdf_layout_parser.py:704-777 | the blocks, each with its lines, type, text and cells, are those of the specification, without the ones that have no text |
| PdfBlocks.NoLineLost | backend/shared/documents/pdf_layout_parser.py:706-777 | blocks of extracted lines concatenate to the lines, cut exactly at gaps and markers, each of its first line's type; none is dropped for want of a text |
| PdfOutcomes.BlocksCutExactly | backend/shared/documents/pdf_layout_parser.py:704-777 | blocks are cut exactly where a line carries a marker or begins, on the same page, more than eighteen points and more than 1.8 font sizes below the one before |
| PdfOutcomes.BlockTextExactly | backend/shared/documents/pdf_layout_parser.py:706-748 | a table row with cells reads cell by cell with bars between; any other block reads as its lines with a blank between, put in order |
| PdfBlocks.BlocksPrint | backend/shared/documents/pdf_layout_parser.py:706-748 | table rows through their cells and other blocks through their text print exactly what the lines print, in order |
| PdfBlocks.ExtractPdfLayout | backend/shared/documents/pdf_layout_parser.py:660-777 | from the words of all pages to the blocks no printed character is lost or moved, but for the lines filtered out |
| PdfBlocks.AnnotateTableBlocks | backend/shared/documents/pdf_layout_parser.py:618-647 | each table row carries the headers of the first fitting row of its unbroken run, and only that row is a header |
| Grouping.GroupIsGrouping | backend/shared/documents/pdf_layout_parser.py:352-363 | the cutting loop loses and reorders nothing and cuts exactly where the test says |
| Grouping.GroupingUnique | backend/shared/documents/pdf_layout_parser.py:352-363 | there is only one such grouping |
| HuTaxId.FormatRoundTrip | backend/apps/settings/domain/hu_tax_id.py:20-28 | formatting loses no digit |
| HuTaxId.NormalizeIsCanonical | backend/apps/settings/domain/hu_tax_id.py:20-42 | normalising is idempotent and changes neither validity nor identity |
| HuTaxId.ValidExactly | backend/apps/settings/domain/hu_tax_id.py:31-42 | a number is valid if and only if the text has eleven digits or more and the eighth completes the first seven, weighted 9, 7, 3, 1, 9, 7 and 3, to a multiple of ten |
| HuTaxId.NormalForm | backend/apps/settings/domain/hu_tax_id.py:20-28 | the first eleven digits, with a dash after the eighth and the ninth where a digit follows |
| HuTaxId.DigitsPieceByPiece | backend/apps/settings/domain/hu_tax_id.py:13-17 | the digits of each part of the text are read in order, and nothing else |
| HuTaxId.DigitsAreAllThatCount | backend/apps/settings/domain/hu_tax_id.py:13-17 | blanks, dots, case and prefix never affect the digits read |
| HuTaxId.SingleErrorDetected | backend/apps/settings/domain/hu_tax_id.py:31-35 | changing one digit of a correct number is always detected |
| HuTaxId.TranspositionDetectedUnlessCongruent | backend/apps/settings/domain/hu_tax_id.py:31-35 | exchanging neighbours is undetected if and only if the digits are equal modulo five |
| HuTaxId.CheckDigitUnique | backend/apps/settings/domain/hu_tax_id.py:31-35 | seven digits have exactly one correct completion |

## Left out

- Ledger: subscriptions without a paid-until date; choosing another paid plan on the ordinary page clears it, which the model reports as `PaidUntilCleared` and runs do not contain.
- LedgerRuns.RunSound: runs whose clock shows existing dates and in which the paid-until date is not cleared.
- Ledger: the debug route that forces a new invoice, webhook upgrades, sign-up seeding and the billing-profile check before a checkout.
- Ledger: a tenant reset, which deletes all rows and starts a new run.
- Ledger: invoices of other kinds (add-ons, upgrades), quotas and the tenant configuration written after each step; of add-on purchases, carry-overs and question warnings a run has the write of the subscription only.
- TenantAdmin: the confirmation of the tenant's name, the schema drop before a deletion, which is taken to succeed, and the two administrator's switches, which are proved equal to their functions in the same way.
- Ledger: two invoices issued at the same instant are told apart by table position, where the database leaves the order open.
- Ledger: the payment gateway's and the mail server's answers are inputs; a mail server that raises instead of answering would leave a charge without its retry mark.
- BillingService: the smaller statements (taking over a due change, issuing a request, completing a payment or an upgrade, cancelling, restoring and cutting access) are proved equal to the functions of `Ledger` in the same way and have no row of their own.
- Ledger: a scheduled change whose effective date is stored in the old year-month form.
- Cancellations: tenants are visited one after the other, where the query mixes the requests of all; the requests of one tenant are visited in table order, which `RequestsInOrder` shows to be the order of the query while the clock does not go back.
- BillingJobs: sessions, transactions and concurrent jobs; each statement is one commit, as in the code.
- Calendar: the bound of years 1 to 9999 on representable dates.
- Pricing: prices are exact integers rounded half to even; binary floating point is not modelled.
- AuditCursor: JSON, ISO and Base64 spellings other than those the encoder writes.
- AuditTrail: the date bounds, action list and e-mail search are one arbitrary filter; the SQL text is a filter, a sort and a limit.
- MfaService: the reading of the settings, where a missing or zero value gives way to its default; which characters beyond ASCII are letters or digits and what they are in upper case, which is a parameter; storage of the scopes as text, the alert mail and the sessions revoked on a lock.
- Chunking: white space outside ASCII.
- PdfLayout: the extent and the font statistics of lines and blocks, which are a parameter or omitted, and white space outside ASCII.
- PdfBlocks: the filter of edge lines and the heading, marker and table-header heuristics are parameters; the metadata recorded beside text, type and cells.
- HuTaxId: digits and white space outside ASCII.
- Platform statistics, monitoring, knowledge-base counts, storage, routers and the user interface.
