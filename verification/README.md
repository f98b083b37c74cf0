# Kontributa: a verified model of the money ledger

Kontributa collects contributions for groups. A *purse* is one collection of a
group; every person it covers has a *contribution* that moves between pending,
expired, flagged, paid and paid manually. Paid money is held until the group
asks for a *payout*, either from one purse or as a *sweep* over the whole group,
which the code then attributes back to the purses.

This project states in Dafny what that ledger, and the protocols around it, keep
true, and proves it. Money is integer kobo, time is an explicit argument, a table
is a sequence whose row ids are positions (rows are never deleted), and the whole
database is one value `Rows.Db`. Code that changes state step by step is a class
whose methods are proved equal to a function on that value; everything that is
promised over runs is proved about the functions.

| file | contents |
|---|---|
| `Sums`, `Rows`, `Tables` | finite sums and exchange of summation order; rows and the database value; the mutable database |
| `Contributions`, `Payouts`, `Purses`, `Webhooks`, `Jobs` | what each operation does to the database |
| `ContributionService`, `PayoutService`, `PlatformServices` | the services, method by method, on the mutable database |
| `Sweep`, `FixedPrecision` | the sweep loop in kobo, and its 28-digit decimal form |
| `ContributionLaws`, `PayoutLaws`, `JobLaws` | what single operations keep |
| `Platform`, `StepFrames` | all entry points as one transition system, its invariant, runs; what each kind of step leaves alone |
| `ContributionEffects`, `PayoutEffects`, `PurseEffects` | the exact outcome of every entry point, from its inputs and the columns it looks at, and what follows over runs |
| `RunGuarantees`, `SweepGuarantees`, `MixedRuns` | the main results about reachable states and runs |
| `Scenarios` | concrete runs: what the code does not keep, and bounds that are attained |
| `AuditPayload`, `AuditChain`, `AuditLock` | the text a row's hash covers, the hash chain, and concurrent writers under the head lock |
| `RefreshTokens`, `Idempotency` | the two key-value protocols |
| `Reporting`, `Buckets` | screens against rows, charts against totals |

`dafny verify dfyconfig.toml` checks everything.

## What is proved, in short

* Two independently computed balances agree in every reachable state; a sweep
  loses no kobo; the last purse of a sweep bears an exactly stated, attained
  rounding excess; the decimal code computes the same shares.
* Runs whose payouts are all purse-scoped never overdraw a purse or a group. Runs
  whose payouts are all sweeps never overdraw a group, but they do overdraw purses
  (`Scenarios.SweepsOnlyOverdraw`), and runs that mix both overdraw groups too
  (`Scenarios.MixedRunOverdraws`). The exact condition is proved per sweep and over
  runs, without reference to the order in which the database happens to scan
  purses: every purse that the sweep draws on must cover its own slice and the
  whole rounding shortfall (`MixedRuns.SweepSafeInAnyOrderIff`,
  `MixedRuns.SolventInAnyOrderIff`).
* An invoice reference is credited at most once, whatever mixture of webhooks,
  repeats, reprocessing, reconciliation, regeneration, top-ups and edits occurs,
  and the invoice a payable contribution holds is always for what it owes.
* Every contribution has received exactly the amounts that the steps of the run
  carried for it (`ContributionEffects.ReceivedIsBooked`), and every payout's status
  is explained by an approval and by what the provider reported
  (`PayoutEffects.PayoutsExplained`). Each payout step moves exactly the money it should:
  approvals, transfer starts and successes none, refusals and failures the whole payout.
* Event logs and the audit log replay each other; settled rows are frozen.
* Two audit logs that verify and end in the same hash are the same log, and every
  overwrite or deletion has an exactly stated verdict. Under the head lock any
  interleaving of writers leaves one chain; without it two writers fork. An
  untampered log is accepted if and only if its rows were created in the order
  they were inserted, which the lock does not ensure.
* Refresh-token families, idempotency keys, reports and charts: see the table.

## Where the code and its comments differ

The model follows the code.

* `verify_chain` says that every row after a tampered one fails too; the loop
  stops at the first. A last row rewritten together with its own hash, and
  the deletion of the newest rows, are accepted, because the walk never looks
  at the head (`AuditChain.OverwriteVerdict`, `AuditChain.DeletionVerdict`).
* `verify_chain` says that it walks in insertion order; its query orders by creation
  time and id. The creation time is the start of the inserting transaction, so a
  transaction that began early and got the head late makes an honest log fail
  (`AuditChain.HonestLogAcceptedIff`, `AuditLock.LateWriterIsBlamed`).
* `apply_payment_confirmation` calls itself a no-op unless the contribution is
  pending; it also accepts an expired one.
* `run_reconciliation` says it only touches pending rows; it selects expired ones.
* `_create_sweep_allocations` calls itself race-free under the group lock, but a
  purse-scoped request locks the purse instead. The model takes `create` as one
  atomic step.

## Model

| member | source | states |
|---|---|---|
| Sweep.SharesExact | app/modules/payouts/service.py:184-199 | the folded shares of any non-empty weighted list add up to exactly the sweep, none is negative, and the folded remainder is at least 0 and below one kobo per purse |
| Sweep.ShareBounds | app/modules/payouts/service.py:186-191 | every share but the last is its exact slice, rounded down by less than a kobo |
| Sweep.LastShareBound | app/modules/payouts/service.py:193-199 | the last share exceeds its exact slice by exactly what rounding took from the others, so by less than n - 1 kobo |
| Sweep.FreshSweepBound | app/modules/payouts/service.py:162-206 | within the collected total no share but the last exceeds its purse's money, the last by at most max(0, n - 2) kobo, and sweeping everything takes exactly each purse's money |
| Sweep.FreshSweepBoundIsTight | app/modules/payouts/service.py:193-199 | for every n >= 2 there is a group on which that excess of n - 2 kobo is reached |
| Sweep.OrderDecides | app/modules/payouts/service.py:168-199 | the order of the purses decides who bears the shortfall: the same three purses are charged 0, 0, 8 or 0, 2, 6 |
| FixedPrecision.RoundThenFloor | app/modules/payouts/service.py:187-189 | rounding a quotient half-even on any grid finer than its denominator does not change its floor |
| FixedPrecision.RoundsToNearestEven | app/modules/payouts/service.py:187-189 | the context's rounding is to the nearest integer, ties to even |
| FixedPrecision.ShareIsFloorAt | app/modules/payouts/service.py:187-189 | at any decimal precision that covers the two bounds, multiply, divide and quantize down equal the integer floor |
| FixedPrecision.ShareIsExactFloor | app/modules/payouts/service.py:187-189 | with 28 digits, sweeps below 10^12 kobo and totals below 10^14 kobo, the decimal share is the exact floor |
| SweepGuarantees.DecimalSharesAreFloors | app/modules/payouts/service.py:184-191 | so each decimal share of such a sweep is the kobo share the ledger model uses |
| ContributionServices.ContributionService.WriteEvent | app/modules/contributions/service.py:430-460 | appends one event row and one audit row with the mapped actor, and nothing else |
| ContributionServices.ContributionService.ExpireIfNeeded | app/modules/contributions/service.py:507-553 | a pending row whose invoice has lapsed becomes expired with both log rows; otherwise nothing changes |
| ContributionServices.ContributionService.GenerateInvoice | app/modules/contributions/service.py:555-680 | expiry first and kept, then each refusal in order, then an invoice for the outstanding amount |
| ContributionServices.ContributionService.ApplyPaymentConfirmation | app/modules/contributions/service.py:682-737 | paid on an exact match, flagged otherwise, nothing when already resolved |
| ContributionServices.ContributionService.MarkManual | app/modules/contributions/service.py:739-755 | adds the logged amount and settles the row unless it already is |
| ContributionServices.ContributionService.ResolveFlag | app/modules/contributions/service.py:757-789 | the four resolutions of a flagged row with their errors |
| ContributionServices.ContributionService.UpdateAmountForPending | app/modules/contributions/service.py:190-206 | pending rows of the purse take the new amount and lose their invoice; no other row changes |
| ContributionLaws.MatchedPaymentLandsPaid | app/modules/contributions/service.py:701-715 | a payment through a held invoice lands paid if and only if it is the amount the invoice was issued for, flagged if and only if it is not |
| ContributionLaws.InvoicesUnshared | app/modules/webhooks/service.py:258-261 | no two contributions hold the same reference, so a payment names at most one row per reference |
| ContributionLaws.TransitionKeeps | app/modules/contributions/service.py:430-460 | a logged change of status along an allowed edge that books no money keeps the whole contribution invariant |
| ContributionLaws.CreditedTransitionKeeps | app/modules/contributions/service.py:701-717 | so does one that books a credit on the row, if its reference was never credited |
| ContributionLaws.GenerateInvoiceKeeps | app/modules/contributions/service.py:574-598 | invoicing with a new reference keeps the invariant, in particular that the cached invoice is for the outstanding amount |
| ContributionLaws.EditKeeps | app/modules/contributions/service.py:190-206 | so does a change of the purse's amount |
| ContributionLaws.ResolveFlagKeeps | app/modules/contributions/service.py:757-789 | so does every resolution of a flag, including the top-up that drops the credited reference |
| PayoutServices.PayoutService.PursesOf | app/modules/payouts/service.py:168-169 | yields every purse of the group once |
| PayoutServices.PayoutService.EligiblePurses | app/modules/payouts/service.py:171-180 | yields the purses with money left, weighted by what they collected, and the total weight |
| PayoutServices.PayoutService.SplitSweep | app/modules/payouts/service.py:184-199 | the loop that accumulates floors and overwrites the last share computes the proportional shares of `Sweep` |
| PayoutServices.PayoutService.StoreShares | app/modules/payouts/service.py:201-206 | stores exactly the positive shares, in order |
| PayoutServices.PayoutService.CreateSweepAllocations | app/modules/payouts/service.py:162-206 | the whole allocator, early return included |
| PayoutServices.PayoutService.Create | app/modules/payouts/service.py:208-281 | each refusal in order, the balance check on the purse or on the group, and the stored payout with its allocations |
| PayoutServices.PayoutService.ApproveOnly | app/modules/payouts/service.py:303-334 | approval with the balance checked again |
| PayoutServices.PayoutService.Reject | app/modules/payouts/service.py:336-348 | rejection of a requested payout |
| PayoutServices.PayoutService.MarkTransferInitiated | app/modules/payouts/service.py:350-368 | approved to processing, or nothing |
| PayoutServices.PayoutService.MarkTransferInitiationFailed | app/modules/payouts/service.py:370-392 | approved to failed, or nothing |
| PayoutServices.PayoutService.ApplyTransferConfirmation | app/modules/payouts/service.py:394-433 | processing to completed or failed, or nothing |
| PayoutLaws.BalancesAgree | app/modules/payouts/service.py:104-160 | purse balances add up to the group balance whenever sweeps are covered by their allocations |
| PayoutLaws.SomePurseHasMoney | app/modules/payouts/service.py:171-178 | a group with a positive balance has a purse with a positive balance |
| PayoutLaws.SweepHasPayers | app/modules/payouts/service.py:180-182 | once the balance check has passed, the early return cannot be taken |
| PayoutLaws.SweepCovers | app/modules/payouts/service.py:162-206 | the rows written for a sweep are positive, stay inside the group, and total exactly the sweep |
| PayoutLaws.CreateKeeps | app/modules/payouts/service.py:208-281 | every request, accepted or refused, keeps the payout invariant |
| PayoutLaws.MoveKeeps | app/modules/payouts/service.py:42-69 | so does every logged status change along an allowed edge |
| PlatformServices.PurseService.Create | app/modules/purses/service.py:46-83 | a new open purse, or the error |
| PlatformServices.PurseService.AddMember | app/modules/purses/service.py:167-208 | a new pending contribution for the purse's current amount |
| PlatformServices.PurseService.Update | app/modules/purses/service.py:85-116 | amount and deadline edits with their effect on contributions, and the audit row with the values before and after |
| PlatformServices.PurseService.Close | app/modules/purses/service.py:118-136 | closing, from any status, with the audited status before and after |
| PlatformServices.PurseService.Reopen | app/modules/purses/service.py:138-165 | reopening a closed purse with a future deadline, with the audited status and deadline before and after |
| PurseEffects.OpeningOutcome | app/modules/purses/service.py:46-83 | a purse opens exactly for an amount above 100 naira, a future deadline and an existing group |
| PurseEffects.EnrolmentOutcome | app/modules/purses/service.py:167-193 | whoever joins an open purse owes its price of now and has paid nothing |
| PurseEffects.ClosingOutcome | app/modules/purses/service.py:118-136 | closing leaves the purse closed, whatever it was, and audits both statuses |
| PurseEffects.ReopeningOutcome | app/modules/purses/service.py:138-165 | only a closed purse reopens, with a future deadline, and both values are audited |
| PurseEffects.ClosedPurseTakesNobody | app/modules/contributions/service.py:567-573 | right after closing, nobody can join the purse and no invoice can be issued in it |
| PlatformServices.WebhookService.StoreEvent | app/modules/webhooks/service.py:30-53 | one row per provider event id; a repeat returns the first |
| PurseEffects.DeliveryOutcome | app/modules/webhooks/service.py:30-53 | a delivery is new exactly when no stored event has its id, is then stored as received, and is answered with the event of that id |
| PlatformServices.WebhookService.MarkProcessed | app/modules/webhooks/service.py:55-61 | the event's flag and error, if it exists |
| PlatformServices.WebhookService.ProcessCollection | app/modules/webhooks/service.py:234-324 | matching by reference, every skip with its recorded error, and the confirmation |
| PlatformServices.WebhookService.ProcessTransfer | app/modules/webhooks/service.py:195-231 | the same for transfers |
| PlatformServices.SelectRows | app/modules/jobs/service.py:40-61 | the rows a reconciliation run looks at, each once |
| PlatformServices.RunReconciliation | app/modules/jobs/service.py:61-108 | the loop, its two counters and the final state |
| JobLaws.RunIsPointwise | app/modules/jobs/service.py:73-105 | a run changes exactly its rows, each once and by itself, and counts the paid ones |
| JobLaws.RunLogsPointwise | app/modules/jobs/service.py:73-105 | it adds to each of its rows' event logs exactly the one event its status change calls for |
| JobLaws.OrderDoesNotMatter | app/modules/jobs/service.py:61-105 | rows, per-row events and count do not depend on the order the query returns |
| JobLaws.SecondRunIsIdle | app/modules/jobs/service.py:33-35 | at the same clock with the same answers a second run updates 0 rows and leaves the whole database unchanged |
| JobLaws.WebhookAndReconciliationCommute | app/modules/webhooks/service.py:265-282 | handling one payment by webhook then reconciliation, or the reverse, gives every contribution the same status and amounts |
| Platform.StepKeeps | app/modules/payouts/service.py:208-433 | every entry point of the ledger keeps the invariant and only makes progress |
| Platform.RunKeeps | app/modules/contributions/service.py:505-789 | so does every run of them |
| Platform.ReachableInv | app/modules/payouts/service.py:104-160 | the invariant holds in every reachable state |
| RunGuarantees.BalancesAlwaysAgree | app/modules/payouts/service.py:117-160 | in every reachable state the purse balances of a group sum to its separately computed balance |
| RunGuarantees.CreditedAtMostOnce | app/modules/contributions/service.py:701-715 | in every reachable state no reference is credited twice, each credit went to the contribution it was issued for, and the received amount is the sum of the credits |
| RunGuarantees.CachedInvoiceAgrees | app/modules/contributions/service.py:596-598 | in every reachable state a held invoice was issued for expected minus received as they are now, and was never credited |
| RunGuarantees.InvoiceIssuedIff | app/modules/contributions/service.py:564-601 | over all steps of the ledger, an invoice is issued if and only if one is asked for, the purse is open and before its deadline, the contribution is pending or expired without a live invoice, and the provider answers; it is for the outstanding amount, which is positive if and only if less than expected was received |
| ContributionEffects.CollectionBooked | app/modules/webhooks/service.py:258-282 | a notification that names exactly one payable row books its amount there, paid if and only if it is the invoiced amount, with one credit, one event, one audit row, and itself processed without error; nothing else changes |
| ContributionEffects.CollectionSkipped | app/modules/webhooks/service.py:258-268 | one that names no row, or a row already resolved, changes only its own row, with the reason; one that names two rows changes nothing; an empty reference names nothing |
| ContributionEffects.ProcessedTwiceBooksOnce | app/modules/admin/router.py:134-147 | resetting a notification and processing it again changes no contribution and no credit |
| ContributionEffects.StepBooks | app/modules/contributions/service.py:701-748 | every step of the ledger adds to what each contribution has received exactly the amount it carries for it, and a new one starts at 0 |
| ContributionEffects.ReceivedIsBooked | app/modules/contributions/service.py:701-748 | over any run, a contribution has received the sum of the logged amounts, notified amounts and provider answers that were accepted for it |
| ContributionEffects.ManualOutcome | app/modules/contributions/service.py:739-755 | a manual mark settles any unsettled row with the logged amount on top, under the admin, and is refused otherwise |
| ContributionEffects.FlagOutcome | app/modules/contributions/service.py:757-789 | accepting keeps what was received as paid, a top-up reopens the row without its invoice, and nothing else changes a row |
| ContributionEffects.DecisionRefusals | app/modules/contributions/service.py:739-778 | each refusal of a manual mark or a flag decision, with its exact condition |
| ContributionEffects.LiveOrLapsed | app/modules/contributions/service.py:519-584 | a pending row with an account has either a live or a lapsed invoice, lapsed from the instant of expiry on |
| ContributionEffects.InvoiceOutcome | app/modules/contributions/service.py:657-676 | an issued invoice leaves the row pending with the provider's reference, account and expiry and the fee of the day, and no other row changes |
| ContributionEffects.LiveInvoiceIsKept | app/modules/contributions/service.py:579-587 | while it is live, asking again changes nothing |
| ContributionEffects.InvoiceRefusals | app/modules/contributions/service.py:567-594 | each refusal of an invoice, with its exact condition |
| ContributionEffects.EditOutcome | app/modules/purses/service.py:85-116 | an accepted edit sets the purse, reprices exactly its pending rows, which lose their invoice, and audits old and new values; a refused one changes nothing |
| ContributionEffects.UntouchedExpectsPrice | app/modules/contributions/service.py:190-206 | in every reachable state a contribution without events expects exactly its purse's amount of now |
| ContributionEffects.NextInvoiceHasNewPrice | app/modules/contributions/service.py:596-598 | the next invoice of a repriced row is for the new amount less what it has received |
| ContributionEffects.ReconciliationOutcome | app/modules/jobs/service.py:40-105 | every row in the mode's scope is booked, expired or left as its answer and expiry say, an hour's rest being what the schedule asks for, and every other row is left |
| RunGuarantees.ContributionLogReplays | app/modules/contributions/service.py:430-460 | each contribution's events lead from pending to its status along allowed edges, and a paid one whose last event was not a rep's was paid exactly |
| RunGuarantees.PayoutLogReplays | app/modules/payouts/service.py:42-69 | each payout's events lead from requested to its status, three at most, and three only when it is finished |
| RunGuarantees.AuditRepeatsEvents | app/modules/contributions/service.py:61-65 | the audit rows for transitions are the event tables, edge by edge, in order, actors mapped |
| RunGuarantees.AuditNamesActors | app/modules/contributions/service.py:61-65 | the j-th audited transition is the j-th event, under the audit log's name for its actor |
| RunGuarantees.DuplicateDeliveryIsInert | app/modules/webhooks/service.py:30-53 | delivering an event id again changes nothing, whatever the second payload |
| RunGuarantees.SettledIsFinal | app/modules/contributions/service.py:701-702 | over any run paid rows stay as they are in full, finished payouts too, and no purse's collected total falls |
| RunGuarantees.CollectedMonotone | app/modules/payouts/service.py:71-86 | collected totals never fall between a state and a later one |
| RunGuarantees.BalancesRise | app/modules/payouts/service.py:27 | without a new request no balance falls: refused and failed payouts release their amount and their allocations |
| RunGuarantees.RequestEffectOnGroup | app/modules/payouts/service.py:262-277 | an accepted request takes exactly its amount from its group and nothing from another |
| RunGuarantees.DirectRequestEffect | app/modules/payouts/service.py:254-274 | an accepted purse-scoped request takes exactly its amount from that purse and nothing from another |
| PurseEffects.RequestGrantedIff | app/modules/payouts/service.py:211-265 | a request is granted if and only if its amount is positive, it is for the admin's group, payouts are enabled for it, and its purse or group can afford it |
| PurseEffects.RequestRefusals | app/modules/payouts/service.py:211-265 | each refusal of a request, with its exact condition |
| PurseEffects.RequestOutcome | app/modules/payouts/service.py:267-281 | a granted request is stored as asked; a refused one leaves no trace |
| PayoutEffects.ApprovalOutcome | app/modules/payouts/service.py:303-334 | an approval goes through exactly for a requested payout whose balance is not negative, names the approver, and moves no money |
| PayoutEffects.RejectionOutcome | app/modules/payouts/service.py:336-348 | a rejection goes through exactly for a requested payout; its group gets the whole amount back and each purse what was taken from it |
| PayoutEffects.TransferStartOutcome | app/modules/payouts/service.py:350-368 | a started transfer takes exactly an approved payout to processing and moves no money |
| PayoutEffects.TransferStartFailureOutcome | app/modules/payouts/service.py:370-383 | one that could not start fails exactly an approved payout and gives its money back |
| PayoutEffects.TransferOutcome | app/modules/payouts/service.py:405-418 | a notification under the reference of one processing payout completes it if and only if it reports success, moving no money, and otherwise fails it with the reported reason, giving its money back; no other payout changes |
| PayoutEffects.TransferSkipped | app/modules/webhooks/service.py:207-221 | every other notification changes only its own row, with the reason; an ambiguous one changes nothing |
| PayoutEffects.PayoutsExplained | app/modules/payouts/service.py:326-416 | in every reachable state a completed payout was approved and reported successful under its reference, one that failed after its start was reported failed, and the others carry just the traces of their steps |
| PayoutEffects.PaidOutIsCollected | app/modules/payouts/service.py:96-130 | in runs of purse-scoped payouts the completed payouts of a purse total at most what it collected |
| PayoutEffects.GroupPaidOutIsCollected | app/modules/payouts/service.py:138-160 | a group whose balance is not negative has paid out at most what its purses collected |
| RunGuarantees.ApprovalRefusedIffOverdrawn | app/modules/payouts/service.py:315-324 | the second balance check refuses exactly when the balance has gone negative |
| RunGuarantees.NoOverdraftWithDirectPayouts | app/modules/payouts/service.py:254-265 | if all payouts of a run are purse-scoped, no purse and no group is ever negative and no approval is refused for money |
| RunGuarantees.NoOverdraftWithSweeps | app/modules/payouts/service.py:256-265 | if all are sweeps, no group is ever negative and no approval is refused for money |
| SweepGuarantees.AcceptedSweepIsCovered | app/modules/payouts/service.py:256-277 | in every reachable state an accepted sweep writes allocations, positive and inside the group, that total exactly its amount |
| SweepGuarantees.SweepEffect | app/modules/payouts/service.py:162-206 | an accepted sweep takes from every purse exactly what it charges it |
| SweepGuarantees.ChargeIsShare | app/modules/payouts/service.py:201-206 | an eligible purse is charged its share, any other purse nothing |
| SweepGuarantees.FreshWeight | app/modules/payouts/service.py:171-180 | in a group that owes nothing the weights total the group's balance |
| SweepGuarantees.FreshSweepIsNearlySafe | app/modules/payouts/service.py:162-206 | from such a reachable state no purse falls below -max(0, n - 2) kobo, and sweeping everything leaves every purse at 0 |
| Scenarios.MixedRunOverdraws | app/modules/payouts/service.py:178-190 | a reachable state, after one purse payout, one sweep and another purse payout, in which a purse and its group are at -9000 kobo |
| Scenarios.SweepsOnlyOverdraw | app/modules/payouts/service.py:178-190 | a run of two sweeps and three payments that leaves a purse at -3334 kobo; the second sweep neither fits nor is covered |
| Scenarios.RoundingBoundIsReached | app/modules/payouts/service.py:193-199 | for every n >= 2 the ledger reaches a group of n purses that owes nothing and a sweep that leaves its last purse at exactly -(n - 2) kobo |
| Scenarios.OverpaidIsInvoicedNegatively | app/modules/contributions/service.py:596-598 | a reachable state in which an overpaid contribution, sent back for a top-up, is invoiced for -10000 kobo |
| MixedRuns.DirectRequestKeepsGroupIff | app/modules/payouts/service.py:254-265 | an accepted purse payout leaves its group solvent exactly when the group could also afford it |
| MixedRuns.SweepKeepsPursesIff | app/modules/payouts/service.py:184-206 | for one given scan order: an accepted sweep over solvent purses leaves them all solvent if and only if each share is within its purse's balance |
| MixedRuns.SolventThroughoutIff | app/modules/payouts/service.py:208-281 | a run of any mixture of payouts overdraws no purse at any point if and only if every sweep it accepts fits |
| MixedRuns.SweepSafeInAnyOrderIff | app/modules/payouts/service.py:162-206 | an accepted sweep over solvent purses is safe in whatever order they are scanned, if and only if every paying purse's balance covers its slice, rounded down, and the whole shortfall |
| MixedRuns.SolventInAnyOrderIff | app/modules/payouts/service.py:208-281 | however the database scans, a run overdraws no purse if and only if every sweep is so covered in the state it is requested in |
| MixedRuns.CoveredRunsOverdrawNothing | app/modules/payouts/service.py:208-281 | such a run overdraws no group either |
| AuditPayload.StringUnique | app/modules/audit/service.py:24-25 | an escaped JSON string followed by any text determines the string and the text |
| AuditPayload.PrintUnique | app/modules/audit/service.py:24-25 | a serialised JSON value is self-delimiting: with what follows it, it determines the value (section 7 of RFC 8259 for strings) |
| AuditPayload.PrintedLayout | app/modules/audit/service.py:24-25 | separators of arrays and objects, short and long escapes, and surrogate pairs, as the serialiser writes them |
| AuditPayload.FieldsUnique | app/modules/audit/service.py:38-49 | fields without the separator can be read back from the joined text |
| AuditPayload.PayloadFields | app/modules/audit/service.py:38-49 | the hashed text is the eight fields in order, a missing id or hash being empty |
| AuditPayload.PayloadUnique | app/modules/audit/service.py:28-49 | equal payloads come from equal entries and equal previous hashes |
| AuditChain.AuditService.RecordEvent | app/modules/audit/service.py:56-98 | appends a sealed row chained to the head, moves the head, and keeps the log chained |
| AuditChain.AuditService.VerifyChain | app/modules/audit/service.py:100-127 | walks the rows as the query orders them, and reports the first that breaks the chain, by link or by content, or valid |
| AuditChain.OneVerdict | app/modules/audit/service.py:111-127 | a log has only one verdict, so it is accepted if and only if it is chained |
| AuditChain.SameTip | app/modules/audit/service.py:111-127 | two verified logs with the same last hash have the same length and the same rows, unless the hash collides on them |
| AuditChain.HashesDistinct | app/modules/audit/service.py:111-127 | no two positions of a verified log carry the same hash |
| AuditChain.OverwriteVerdict | app/modules/audit/service.py:113-123 | the exact verdict after overwriting any row with any other: always noticed for an inner row, for the last one exactly when the new row is inconsistent in itself |
| AuditChain.ContentChangeIsNamed | app/modules/audit/service.py:116-123 | changing only what a row says is reported at that row |
| AuditChain.DeletionVerdict | app/modules/audit/service.py:111-127 | deleting rows is accepted if and only if they were the newest, and then the head no longer matches |
| AuditChain.ChainFixesOrder | app/modules/audit/service.py:111-125 | the rows of a verified log form a chain in no other order |
| AuditChain.HonestLogAcceptedIff | app/modules/audit/service.py:108-127 | an untampered log is accepted, as the query orders it, if and only if creation times and ids rise in insertion order |
| AuditLock.StepKeeps | app/modules/audit/service.py:76-98 | with the head row locked, every step of every writer keeps the table one chain and loses no committed row |
| AuditLock.RunKeeps | app/modules/audit/service.py:76-98 | so does every interleaving, from any good state |
| AuditLock.CommittedRowsVerify | app/modules/audit/models.py:50-62 | after any interleaving of any number of writers, verification accepts the committed rows in insertion order and the head is the last row's hash |
| AuditLock.CommittedRowsDoNotFork | app/modules/audit/service.py:71-75 | no two committed rows continue the same row |
| AuditLock.CommittedRowsAcceptedIff | app/modules/audit/service.py:76-127 | after any locked interleaving, verification of the committed rows as queried succeeds if and only if their transactions began in insertion order |
| AuditLock.LateWriterIsBlamed | app/modules/audit/models.py:47 | two honest locked writers, the earlier of which gets the head last, leave a log that verification rejects |
| AuditLock.UnlockedWritersFork | app/modules/audit/service.py:71-75 | without the lock two writers can commit two first rows, and verification blames the second |
| RefreshTokens.RefreshTokenService.Issue | app/core/auth.py:113-122 | a record and the family's pointer, with the same lifetime |
| RefreshTokens.RefreshTokenService.Peek | app/core/auth.py:124-132 | the user and family of a live record |
| RefreshTokens.RefreshTokenService.Rotate | app/core/auth.py:134-152 | refusal, reuse detection with revocation, or a new current token |
| RefreshTokens.RefreshTokenService.RevokeByToken | app/core/auth.py:154-159 | ends the family of a live token |
| RefreshTokens.RefreshTokenService.RevokeFamily | app/core/auth.py:161-165 | deletes the pointer and the current token's record |
| RefreshTokens.PointerAndRecordLiveTogether | app/core/auth.py:118-121 | after any run, at any time, a family's live pointer names a token if and only if that token is accepted for that family; hence at most one |
| RefreshTokens.RefreshHandsOver | app/core/auth.py:143-152 | a refresh succeeds exactly for an accepted token, and then only the new one is accepted |
| RefreshTokens.RefusalSaysWhy | app/core/auth.py:135-149 | a refresh is refused as invalid exactly without a live record, changing nothing, and as reuse exactly for a live token that is not current, ending the family |
| RefreshTokens.LifetimeIsExact | app/core/auth.py:117-121 | an unused token is accepted for exactly its lifetime, for its user and family |
| RefreshTokens.RevocationOutcome | app/core/auth.py:161-165 | ending a family deletes its pointer and the record of its current token, and no other key |
| RefreshTokens.LogoutOutcome | app/core/auth.py:154-159 | logging out ends the family of a live token and does nothing for another |
| RefreshTokens.AcceptedAtMostOnce | app/core/auth.py:88-99 | over any run no token is accepted twice |
| RefreshTokens.WhatKills | app/core/auth.py:143-165 | presenting a rotated token, logging out any live token, ending the family, or its expiry makes the family unusable |
| RefreshTokens.DeadForever | app/core/auth.py:95-98 | once unusable, no later state accepts any token of the family (rotation pattern of section 5.2.2.3 of RFC 6819) |
| Idempotency.IdempotencyStore.Begin | app/core/idempotency.py:56-84 | reserves a free key, else replays, or refuses a different body or a request in flight; proceeds without a reservation when the key expires in between |
| Idempotency.IdempotencyStore.Complete | app/core/idempotency.py:86-100 | stores the response |
| Idempotency.IdempotencyStore.Release | app/core/idempotency.py:102-103 | frees the key |
| Idempotency.OneWorkerPerKey | app/core/idempotency.py:32-46 | in any interleaving at most one worker holds a key that never expired, and every other request under it is turned away |
| Idempotency.CompletionIsFinal | app/core/idempotency.py:43-46 | work under a key completes at most once, and, while the key does not expire, the same request gets that very response and any other is refused |
| Idempotency.ReplaysAreReal | app/core/idempotency.py:74-84 | a response is replayed only if a worker completed that request with it |
| Idempotency.FailureFreesKey | app/core/idempotency.py:38-40 | after a failure the next request under the key proceeds |
| Idempotency.ExpiryAllowsTwice | app/core/idempotency.py:64-72 | a key that expires while it is worked under lets the work be completed twice |
| Reporting.SummaryForPurse | app/modules/contributions/service.py:267-314 | the loop over grouped rows yields the figures counted from the contributions themselves |
| Reporting.CountsForPurses | app/modules/contributions/service.py:316-332 | (paid, total) of every purse asked about |
| Reporting.CollectedTotalsForPurses | app/modules/contributions/service.py:334-352 | the settled total of every purse asked about, 0 where there is none |
| Reporting.SummaryAgrees | app/modules/contributions/service.py:292-314 | the four counts partition the rows, the two sources add up to the settled total, and each count is the number of rows so badged; for pending this holds if and only if the purse is not closed or nothing is pending |
| Reporting.CompleteIff | app/modules/contributions/service.py:288-290 | the summary shows 100 % if and only if at most one row in twenty thousand is unsettled |
| Reporting.OnlineIsWithdrawable | app/modules/contributions/service.py:279-287 | the summary's online money is the collected total of the payout ledger, and its manual money the rest of what is settled |
| Reporting.CombinedIsStable | app/modules/contributions/service.py:45-59 | the combined list is sorted by creation time, a permutation, and stable with members before admins |
| Reporting.FilteredIsPartOfFull | app/modules/contributions/service.py:233-256 | a filtered list is the full list with the other rows left out |
| Reporting.PagesAreTheList | app/modules/contributions/service.py:255-256 | pages read one after the other are the list |
| Reporting.FilterTotalsAgree | app/modules/contributions/service.py:233-246 | the total of a status filter is the number of rows of that status, and of the "pending" filter the summary's pending count, for every purse status |
| Buckets.BuildBuckets | app/modules/admin/analytics_service.py:58-76 | ceil(days / width) contiguous buckets from the window's start, the last ending one second after now |
| Buckets.BucketWidths | app/modules/admin/analytics_service.py:66-75 | days for a week or less and weeks otherwise, exactly, but for the last bucket; 7, 5 and 13 buckets for 7, 30 and 90 days |
| Buckets.InExactlyOne | app/modules/admin/analytics_service.py:58-76 | every instant of a non-empty window is in exactly one bucket |
| Buckets.GrowthTrend | app/modules/admin/analytics_service.py:233-254 | each bar counts the rows of its bucket |
| Buckets.GrowthAddsUp | app/modules/admin/analytics_service.py:168-173 | the bars add up to the overview's count, if and only if the window has days or found nothing |
| Buckets.RevenueTrend | app/modules/admin/analytics_service.py:206-231 | each bar is its bucket's fee total rounded to the kobo |
| Buckets.FeeIsPercentage | app/modules/admin/analytics_service.py:225-230 | q percent of 100 x kobo is q x kobo, and no percentage is no fee |
| Buckets.MoneyIsNearest | app/modules/admin/analytics_service.py:31-39 | rounding is to the nearest kobo, halves away from zero |
| Buckets.RevenueNearlyAddsUp | app/modules/admin/analytics_service.py:122-128 | n rounded bars differ from the rounded overview revenue by at most (n + 1) / 2 kobo |

## Left out

- Service calls are atomic steps that read current rows; stale rows held by a session while another call commits, and the two different locks taken by purse-scoped and group-wide `create`, are not modelled.
- SQLAlchemy sessions, identity maps, flushes and migrations. Only the audit head lock is modelled below the level of a call.
- PlatformServices.PurseService.Create: does not model the settlement account that must exist first, the title, the cohort, or the contributions generated for existing members, who are enrolled by separate steps.
- PlatformServices.PurseService.AddMember: does not model the group scope, membership, cohort and already-enrolled checks (it also stands for the automatic enrolments, which have other checks), nor the audit row, which the code records after its last commit.
- ContributionServices.ContributionService.GenerateInvoice: does not model the choice of provider, the split configuration, or the move of a settlement account to another provider; the provider's answer is an argument, and its reference is taken to be new (the code draws eight random hexadecimal digits).
- Deleting a group or purse with everything in it; expiry of purses by other means than the steps modelled.
- Amounts with fractions of a kobo, which the payout request schema does not exclude.
- Postgres `numeric` division, taken as exact; the platform fee is kept in hundredths of a percent, as its column is.
- Notes, bank names, emails, realtime messages, and the wording of recorded webhook errors beyond their kind.
- PlatformServices.WebhookService.ProcessCollection: records which error occurred, and for which contribution status, not the text with the provider's reason and amounts.
- Parsing of webhook bodies and provider answers; signatures; the settlement webhook.
- AuditChain.AuditService.VerifyChain: the JSON states are those read back from the table, and JSON numbers are kept as the text they print as. Ids are numbers, whose order stands for the order of UUIDs.
- The ledger keeps its audit rows as plain entries; the hashes over them are modelled apart, in `AuditPayload`, `AuditChain` and `AuditLock`.
- AuditChain.SameTip: assumes no hash collision among the rows compared, and a hash that is never the empty string, instead of modelling SHA-256.
- Idempotency.IdempotencyStore.Complete: does not model the 24 hours after which the response expires; a key may expire at any moment instead, and `Idempotency.CompletionIsFinal` and `Idempotency.OneWorkerPerKey` are about keys that have not.
- Idempotency.IdempotencyStore.Begin: takes the two store commands as one step, except that the key may expire between them; a release by another worker between them also lets a caller proceed without a reservation, and is not modelled.
- RefreshTokens.AcceptedAtMostOnce: takes each method as atomic, and tokens and family ids as new; the inactivity clock that may end a family is a step that ends it.
- Reporting.CombinedIsStable: says nothing about the order of rows created at the same time across two requests, since the queries themselves are unordered.
- Reporting.SummaryForPurse: computes `percent_complete` exactly, in hundredths of a percent with ties to even; the code rounds the floating-point quotient, which may fall the other way at a tie.
- Buckets.BuildBuckets: labels and time zones are not modelled; instants are microseconds.
- Payout fee settings, settlement modes beyond the two checks in `create`, rate limits, membership, invitations, organisations, slugs, exports and templates are not modelled.
