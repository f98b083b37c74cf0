/** The whole money ledger as one transition system: every entry point is a
    step, and what is promised holds after any run of steps. */
module Platform {
  import opened Rows
  import opened Contributions
  import opened ContributionLaws
  import opened Payouts
  import opened PayoutLaws
  import Purses
  import Webhooks
  import Jobs

  datatype Step =
    | OpenPurse(admin: Admin, amount: Kobo, deadline: Time, now: Time)
    | Enrol(purse: nat, now: Time)
    | EditPurse(admin: Admin, purse: nat, newAmount: Option<Kobo>, newDeadline: Option<Time>, now: Time)
    | ClosePurse(admin: Admin, purse: nat)
    | ReopenPurse(admin: Admin, purse: nat, deadline: Time, now: Time)
    | RequestInvoice(contribution: nat, answer: Option<ProviderInvoice>, fee: Option<nat>, now: Time)
    | LogManual(contribution: nat, admin: Admin, amount: Kobo, now: Time)
    | DecideFlag(contribution: nat, admin: Admin, resolution: Resolution, now: Time)
    | Deliver(id: string, payload: Payload)
    | Reset(event: nat)
    | ProcessCollection(event: nat, now: Time)
    | ProcessTransfer(event: nat)
    | RunReconciliation(mode: Jobs.Mode, rows: seq<nat>, answers: Jobs.Answers, now: Time)
    | RequestPayout(admin: Admin, req: PayoutRequest, gate: Gate, scan: seq<nat>)
    | ApprovePayout(payout: nat, userId: nat)
    | RejectPayout(payout: nat, userId: nat, reason: string)
    | StartTransfer(payout: nat, ref: Ref)
    | FailTransferStart(payout: nat, reason: string)

  /** What the outside world guarantees: the provider never reuses an invoice
      reference, and a query returns exactly the rows it asks for. */
  ghost predicate Admissible(db: Db, step: Step) {
    match step
    case RequestInvoice(_, answer, _, _) => answer.Some? ==> answer.value.ref !in db.invoices
    case RunReconciliation(mode, rows, _, now) => Jobs.IsSelection(db.contributions, mode, now, rows)
    case RequestPayout(admin, _, _, scan) => IsScan(db, admin.group, scan)
    case _ => true
  }

  function Apply(db: Db, step: Step): Db {
    match step
    case OpenPurse(admin, amount, deadline, now) => Purses.CreatePurse(db, admin, amount, deadline, now).0
    case Enrol(p, now) => Purses.Enrol(db, p, now).0
    case EditPurse(admin, p, amount, deadline, now) => Purses.UpdatePurse(db, admin, p, amount, deadline, now).0
    case ClosePurse(admin, p) => Purses.ClosePurse(db, admin, p).0
    case ReopenPurse(admin, p, deadline, now) => Purses.ReopenPurse(db, admin, p, deadline, now).0
    case RequestInvoice(i, answer, fee, now) => GenerateInvoice(db, i, answer, fee, now).0
    case LogManual(i, admin, amount, now) => MarkManual(db, i, admin, amount, now).0
    case DecideFlag(i, admin, resolution, now) => ResolveFlag(db, i, admin, resolution, now).0
    case Deliver(id, payload) => Webhooks.StoreEvent(db, id, payload).0
    case Reset(e) => Webhooks.ResetEvent(db, e)
    case ProcessCollection(e, now) => Webhooks.ProcessCollection(db, e, now).0
    case ProcessTransfer(e) => Webhooks.ProcessTransfer(db, e).0
    case RunReconciliation(mode, rows, answers, now) =>
      if forall x :: 0 <= x < |rows| ==> rows[x] < |db.contributions|
      then Jobs.Reconcile(db, rows, answers, now).0 else db
    case RequestPayout(admin, req, gate, scan) => CreatePayout(db, admin, req, gate, scan).0
    case ApprovePayout(k, userId) => Approve(db, k, userId).0
    case RejectPayout(k, userId, reason) => Reject(db, k, userId, reason).0
    case StartTransfer(k, ref) => MarkTransferInitiated(db, k, ref).0
    case FailTransferStart(k, reason) => MarkTransferInitiationFailed(db, k, reason).0
  }

  function Run(db: Db, steps: seq<Step>): Db {
    if steps == [] then db else Apply(Run(db, steps[..|steps| - 1]), steps[|steps| - 1])
  }

  ghost predicate ValidRun(db: Db, steps: seq<Step>) {
    steps == [] ||
    (ValidRun(db, steps[..|steps| - 1]) && Admissible(Run(db, steps[..|steps| - 1]), steps[|steps| - 1]))
  }

  ghost predicate Reachable(db: Db) {
    exists groups: nat, steps: seq<Step> :: ValidRun(EmptyDb(groups), steps) && db == Run(EmptyDb(groups), steps)
  }

  // ----- the invariant -----

  ghost predicate EventsUnique(events: seq<WebhookEvent>) {
    forall d, e :: 0 <= d < e < |events| ==> events[d].providerEventId != events[e].providerEventId
  }

  ghost predicate Inv(db: Db) {
    && ContributionsOk(db)
    && PayoutsOk(db)
    && EventsUnique(db.webhookEvents)
  }

  /** Purses stay in their group, and a stored event keeps its content. */
  ghost predicate PursesProgress(db: Db, db': Db) {
    && db'.groups == db.groups
    && |db.purses| <= |db'.purses|
    && (forall p :: 0 <= p < |db.purses| ==> db'.purses[p].group == db.purses[p].group)
    && |db.webhookEvents| <= |db'.webhookEvents|
    && (forall e :: 0 <= e < |db.webhookEvents| ==>
          && db'.webhookEvents[e].providerEventId == db.webhookEvents[e].providerEventId
          && db'.webhookEvents[e].payload == db.webhookEvents[e].payload)
  }

  ghost predicate Progress(db: Db, db': Db) {
    ContributionsProgress(db, db') && PayoutsProgress(db, db') && PursesProgress(db, db')
  }

  lemma InvParts(db: Db)
    requires Inv(db)
    ensures ContributionsOk(db) && PayoutsOk(db)
  {
  }

  lemma ProgressTransitive(a: Db, b: Db, c: Db)
    requires Progress(a, b) && Progress(b, c)
    ensures Progress(a, c)
  {
  }

  // ----- one side at a time -----

  lemma ContributionStep(db: Db, db': Db)
    requires Inv(db)
    requires ContributionsOk(db') && ContributionsProgress(db, db') && TouchesOnlyContributions(db, db')
    ensures Inv(db') && Progress(db, db')
  {
    PayoutAuditFrame(db.audit, db'.audit);
  }

  lemma PayoutStep(db: Db, db': Db)
    requires Inv(db)
    requires PayoutsOk(db') && PayoutsProgress(db, db') && TouchesOnlyPayouts(db, db')
    ensures Inv(db') && Progress(db, db')
  {
    ContributionAuditFrame(db.audit, db'.audit);
  }

  /** Only purses change, never their group, and the audit log records purse changes. */
  ghost predicate TouchesOnlyPurses(db: Db, db': Db) {
    && db' == db.(purses := db'.purses, audit := db'.audit)
    && |db.purses| <= |db'.purses|
    && (forall p :: 0 <= p < |db.purses| ==> db'.purses[p].group == db.purses[p].group)
    && db.audit <= db'.audit
    && forall j :: |db.audit| <= j < |db'.audit| ==> db'.audit[j].PurseChange?
  }

  lemma PurseStep(db: Db, db': Db)
    requires Inv(db) && TouchesOnlyPurses(db, db')
    ensures Inv(db') && Progress(db, db')
  {
    ContributionAuditFrame(db.audit, db'.audit);
    PayoutAuditFrame(db.audit, db'.audit);
    forall k | 0 <= k < |db.payouts| ensures PayoutKnown(db.payouts[k], db'.purses) {
      assert PayoutKnown(db.payouts[k], db.purses);
    }
    forall a | 0 <= a < |db.allocations| ensures AllocationKnown(db.allocations[a], db.payouts, db'.purses) {
      assert AllocationKnown(db.allocations[a], db.payouts, db.purses);
    }
  }

  lemma ThenPurseStep(db: Db, db1: Db, db': Db)
    requires Inv(db1) && Progress(db, db1) && TouchesOnlyPurses(db1, db')
    ensures Inv(db') && Progress(db, db')
  {
    PurseStep(db1, db');
    ProgressTransitive(db, db1, db');
  }

  /** Only the webhook event table changes, and no stored event its content. */
  ghost predicate TouchesOnlyEvents(db: Db, db': Db) {
    && db' == db.(webhookEvents := db'.webhookEvents)
    && |db.webhookEvents| <= |db'.webhookEvents|
    && (forall e :: 0 <= e < |db.webhookEvents| ==>
          && db'.webhookEvents[e].providerEventId == db.webhookEvents[e].providerEventId
          && db'.webhookEvents[e].payload == db.webhookEvents[e].payload)
  }

  lemma EventStep(db: Db, db': Db)
    requires Inv(db) && TouchesOnlyEvents(db, db') && EventsUnique(db'.webhookEvents)
    ensures Inv(db') && Progress(db, db')
  {
  }

  lemma MarkProcessedKeeps(db: Db, e: nat, error: Option<ProcessingError>)
    requires Inv(db)
    ensures Inv(Webhooks.MarkProcessed(db, e, error)) && Progress(db, Webhooks.MarkProcessed(db, e, error))
  {
    EventStep(db, Webhooks.MarkProcessed(db, e, error));
  }

  lemma DeliverKeeps(db: Db, id: string, payload: Payload)
    requires Inv(db)
    ensures var db' := Webhooks.StoreEvent(db, id, payload).0; Inv(db') && Progress(db, db')
  {
    EventStep(db, Webhooks.StoreEvent(db, id, payload).0);
  }

  lemma ResetKeeps(db: Db, e: nat)
    requires Inv(db)
    ensures Inv(Webhooks.ResetEvent(db, e)) && Progress(db, Webhooks.ResetEvent(db, e))
  {
    EventStep(db, Webhooks.ResetEvent(db, e));
  }

  // ----- the composite steps -----

  lemma RepriceKeeps(db: Db, p: nat, amount: Option<Kobo>, now: Time)
    requires Inv(db) && p < |db.purses|
    ensures var db' := Purses.Reprice(db, p, amount, now); Inv(db') && Progress(db, db')
  {
    if amount.Some? {
      var priced := Purses.PutPurse(db, p, db.purses[p].(amount := amount.value));
      PurseStep(db, priced);
      EditKeeps(priced, p, amount.value, now);
      var db' := UpdateAmountForPending(priced, p, amount.value, now);
      ContributionStep(priced, db');
      ProgressTransitive(db, priced, db');
    }
  }

  lemma RedateOnlyPurses(db: Db, admin: Admin, p: nat, deadline: Option<Time>, before: Purse)
    requires p < |db.purses|
    ensures TouchesOnlyPurses(db, Purses.Audit(Purses.Redate(db, p, deadline), p, Edited, admin, before))
  {
  }

  lemma EditPurseKeeps(db: Db, admin: Admin, p: nat, amount: Option<Kobo>, deadline: Option<Time>, now: Time)
    requires Inv(db)
    ensures var db' := Purses.UpdatePurse(db, admin, p, amount, deadline, now).0; Inv(db') && Progress(db, db')
  {
    if Purses.UpdatePurse(db, admin, p, amount, deadline, now).1.Ok? {
      EditAppliedKeeps(db, admin, p, amount, deadline, now);
    }
  }

  lemma EditAppliedKeeps(db: Db, admin: Admin, p: nat, amount: Option<Kobo>, deadline: Option<Time>, now: Time)
    requires Inv(db) && p < |db.purses|
    ensures var db1 := Purses.Reprice(db, p, amount, now);
      var db' := Purses.Audit(Purses.Redate(db1, p, deadline), p, Edited, admin, db.purses[p]);
      Inv(db') && Progress(db, db')
  {
    RepriceKeeps(db, p, amount, now);
    var db1 := Purses.Reprice(db, p, amount, now);
    RedateOnlyPurses(db1, admin, p, deadline, db.purses[p]);
    ThenPurseStep(db, db1, Purses.Audit(Purses.Redate(db1, p, deadline), p, Edited, admin, db.purses[p]));
  }

  lemma OtherPurseSteps(db: Db, step: Step)
    requires step.OpenPurse? || step.ClosePurse? || step.ReopenPurse?
    ensures TouchesOnlyPurses(db, Apply(db, step))
  {
  }

  lemma ThenMarkProcessed(db: Db, mid: Db, e: nat, error: Option<ProcessingError>)
    requires Inv(mid) && Progress(db, mid)
    ensures Inv(Webhooks.MarkProcessed(mid, e, error)) && Progress(db, Webhooks.MarkProcessed(mid, e, error))
  {
    hide Inv, Progress;
    MarkProcessedKeeps(mid, e, error);
    ProgressTransitive(db, mid, Webhooks.MarkProcessed(mid, e, error));
  }

  lemma FinishCollectionKeeps(db: Db, e: nat, i: nat, amount: nat, paidOn: Option<Time>, now: Time)
    requires Inv(db) && i < |db.contributions|
    ensures var db' := Webhooks.FinishCollection(db, e, i, amount, paidOn, now); Inv(db') && Progress(db, db')
  {
    MarkProcessedKeeps(db, e, Some(ContributionAlready(db.contributions[i].status)));
    var paid := ConfirmPayment(db, i, amount, paidOn, Webhook, now).0;
    ConfirmKeeps(db, i, amount, paidOn, Webhook, now);
    ContributionStep(db, paid);
    ThenMarkProcessed(db, paid, e, None);
  }

  lemma FinishTransferKeeps(db: Db, e: nat, k: nat, success: bool, reason: Option<string>)
    requires Inv(db) && k < |db.payouts|
    ensures var db' := Webhooks.FinishTransfer(db, e, k, success, reason); Inv(db') && Progress(db, db')
  {
    MarkProcessedKeeps(db, e, Some(PayoutAlready(db.payouts[k].status)));
    var moved := ApplyTransferConfirmation(db, k, success, reason).0;
    ConfirmTransferKeeps(db, k, success, reason);
    PayoutStep(db, moved);
    ThenMarkProcessed(db, moved, e, None);
  }

  lemma ProgressReflexive(db: Db)
    ensures Progress(db, db)
  {
  }

  lemma ProcessCollectionKeeps(db: Db, e: nat, now: Time)
    requires Inv(db)
    ensures var db' := Webhooks.ProcessCollection(db, e, now).0; Inv(db') && Progress(db, db')
  {
    hide Inv, Progress;
    ProgressReflexive(db);
    if e < |db.webhookEvents| {
      match db.webhookEvents[e].payload
      case Collection(r1, r2, amount, paidOn) =>
        var found := Webhooks.Matching(db.contributions, Webhooks.RefsOf(r1, r2));
        if |found| == 0 {
          MarkProcessedKeeps(db, e, Some(NoMatchingContribution));
        } else if |found| == 1 {
          FinishCollectionKeeps(db, e, found[0], amount, paidOn, now);
        }
      case RejectedPayment(ref) =>
        var found := Webhooks.Matching(db.contributions, {ref});
        if |found| == 0 {
          MarkProcessedKeeps(db, e, Some(PaymentRejectedUnmatched));
        } else if |found| == 1 {
          MarkProcessedKeeps(db, e, Some(PaymentRejected(db.contributions[found[0]].status)));
        }
      case _ => MarkProcessedKeeps(db, e, Some(NotACollectionEvent));
    }
  }

  lemma NamedTransferKeeps(db: Db, e: nat, found: seq<nat>, success: bool, reason: Option<string>)
    requires Inv(db) && (|found| == 1 ==> found[0] < |db.payouts|)
    ensures |found| == 0 ==>
      Inv(Webhooks.MarkProcessed(db, e, Some(NoMatchingPayout))) &&
      Progress(db, Webhooks.MarkProcessed(db, e, Some(NoMatchingPayout)))
    ensures |found| == 1 ==>
      Inv(Webhooks.FinishTransfer(db, e, found[0], success, reason)) &&
      Progress(db, Webhooks.FinishTransfer(db, e, found[0], success, reason))
  {
    hide Inv, Progress;
    if |found| == 0 {
      MarkProcessedKeeps(db, e, Some(NoMatchingPayout));
    } else if |found| == 1 {
      FinishTransferKeeps(db, e, found[0], success, reason);
    }
  }

  lemma ProcessTransferKeeps(db: Db, e: nat)
    requires Inv(db)
    ensures var db' := Webhooks.ProcessTransfer(db, e).0; Inv(db') && Progress(db, db')
  {
    hide Inv, Progress;
    ProgressReflexive(db);
    if e < |db.webhookEvents| {
      match db.webhookEvents[e].payload
      case Transfer(ref, success, reason) =>
        NamedTransferKeeps(db, e, Webhooks.MatchingPayouts(db.payouts, ref), success, reason);
      case _ => MarkProcessedKeeps(db, e, Some(NotATransferEvent));
    }
  }

  lemma {:induction false} ReconcileKeeps(db: Db, rows: seq<nat>, answers: Jobs.Answers, now: Time)
    requires Inv(db) && forall x :: 0 <= x < |rows| ==> rows[x] < |db.contributions|
    ensures var db' := Jobs.Reconcile(db, rows, answers, now).0; Inv(db') && Progress(db, db')
  {
    if rows != [] {
      var n := |rows| - 1;
      ReconcileKeeps(db, rows[..n], answers, now);
      var before := Jobs.Reconcile(db, rows[..n], answers, now).0;
      var i := rows[n];
      var after := Jobs.ReconcileOne(before, i, answers, now).0;
      var c := before.contributions[i];
      if c.invoice.Some? && c.invoice.value in answers {
        var paid := answers[c.invoice.value];
        ConfirmKeeps(before, i, paid.amount, paid.paidOn, ReconciliationJob, now);
      } else {
        ExpireKeeps(before, i, now);
      }
      ContributionStep(before, after);
      ProgressTransitive(db, before, after);
    }
  }

  lemma EnrolStep(db: Db, p: nat, now: Time)
    requires Inv(db)
    ensures var db' := Purses.Enrol(db, p, now).0; Inv(db') && Progress(db, db')
  {
    if Purses.Enrol(db, p, now).1.Ok? {
      EnrolKeeps(db, p, db.purses[p].amount, now);
      ContributionStep(db, Purses.Enrol(db, p, now).0);
    }
  }

  lemma InvoiceStep(db: Db, i: nat, answer: Option<ProviderInvoice>, fee: Option<nat>, now: Time)
    requires Inv(db) && (answer.Some? ==> answer.value.ref !in db.invoices)
    ensures var db' := GenerateInvoice(db, i, answer, fee, now).0; Inv(db') && Progress(db, db')
  {
    GenerateInvoiceKeeps(db, i, answer, fee, now);
    ContributionStep(db, GenerateInvoice(db, i, answer, fee, now).0);
  }

  lemma ManualStep(db: Db, i: nat, admin: Admin, amount: Kobo, now: Time)
    requires Inv(db)
    ensures var db' := MarkManual(db, i, admin, amount, now).0; Inv(db') && Progress(db, db')
  {
    MarkManualKeeps(db, i, admin, amount, now);
    ContributionStep(db, MarkManual(db, i, admin, amount, now).0);
  }

  lemma FlagStep(db: Db, i: nat, admin: Admin, resolution: Resolution, now: Time)
    requires Inv(db)
    ensures var db' := ResolveFlag(db, i, admin, resolution, now).0; Inv(db') && Progress(db, db')
  {
    ResolveFlagKeeps(db, i, admin, resolution, now);
    ContributionStep(db, ResolveFlag(db, i, admin, resolution, now).0);
  }

  lemma RequestStep(db: Db, admin: Admin, req: PayoutRequest, gate: Gate, scan: seq<nat>)
    requires Inv(db) && IsScan(db, admin.group, scan)
    ensures var db' := CreatePayout(db, admin, req, gate, scan).0; Inv(db') && Progress(db, db')
  {
    CreateKeeps(db, admin, req, gate, scan);
    PayoutStep(db, CreatePayout(db, admin, req, gate, scan).0);
  }

  lemma ApproveStep(db: Db, k: nat, userId: nat)
    requires Inv(db)
    ensures var db' := Approve(db, k, userId).0; Inv(db') && Progress(db, db')
  {
    ApproveKeeps(db, k, userId);
    PayoutStep(db, Approve(db, k, userId).0);
  }

  lemma RejectStep(db: Db, k: nat, userId: nat, reason: string)
    requires Inv(db)
    ensures var db' := Reject(db, k, userId, reason).0; Inv(db') && Progress(db, db')
  {
    RejectKeeps(db, k, userId, reason);
    PayoutStep(db, Reject(db, k, userId, reason).0);
  }

  lemma TransferStartStep(db: Db, k: nat, ref: Ref)
    requires Inv(db)
    ensures var db' := MarkTransferInitiated(db, k, ref).0; Inv(db') && Progress(db, db')
  {
    InitiatedKeeps(db, k, ref);
    PayoutStep(db, MarkTransferInitiated(db, k, ref).0);
  }

  lemma TransferStartFailedStep(db: Db, k: nat, reason: string)
    requires Inv(db)
    ensures var db' := MarkTransferInitiationFailed(db, k, reason).0; Inv(db') && Progress(db, db')
  {
    InitiationFailedKeeps(db, k, reason);
    PayoutStep(db, MarkTransferInitiationFailed(db, k, reason).0);
  }

  lemma OtherPurseStepKeeps(db: Db, step: Step)
    requires Inv(db) && (step.OpenPurse? || step.ClosePurse? || step.ReopenPurse?)
    ensures Inv(Apply(db, step)) && Progress(db, Apply(db, step))
  {
    OtherPurseSteps(db, step);
    PurseStep(db, Apply(db, step));
  }

  predicate PayoutSide(step: Step) {
    step.RequestPayout? || step.ApprovePayout? || step.RejectPayout?
  }

  lemma PayoutSideKeeps(db: Db, step: Step)
    requires Inv(db) && Admissible(db, step) && PayoutSide(step)
    ensures Inv(Apply(db, step)) && Progress(db, Apply(db, step))
  {
    hide Inv, Progress;
    match step
    case RequestPayout(admin, req, gate, scan) => RequestStep(db, admin, req, gate, scan);
    case ApprovePayout(k, userId) => ApproveStep(db, k, userId);
    case RejectPayout(k, userId, reason) => RejectStep(db, k, userId, reason);
  }

  predicate TransferSide(step: Step) {
    step.StartTransfer? || step.FailTransferStart? || step.ProcessTransfer?
  }

  lemma TransferSideKeeps(db: Db, step: Step)
    requires Inv(db) && TransferSide(step)
    ensures Inv(Apply(db, step)) && Progress(db, Apply(db, step))
  {
    hide Inv, Progress;
    match step
    case StartTransfer(k, ref) => TransferStartStep(db, k, ref);
    case FailTransferStart(k, reason) => TransferStartFailedStep(db, k, reason);
    case ProcessTransfer(e) => ProcessTransferKeeps(db, e);
  }

  predicate PurseSide(step: Step) {
    step.OpenPurse? || step.ClosePurse? || step.ReopenPurse? || step.EditPurse? || step.Enrol?
  }

  lemma PurseSideKeeps(db: Db, step: Step)
    requires Inv(db) && PurseSide(step)
    ensures Inv(Apply(db, step)) && Progress(db, Apply(db, step))
  {
    hide Inv, Progress;
    match step
    case OpenPurse(_, _, _, _) => OtherPurseStepKeeps(db, step);
    case ClosePurse(_, _) => OtherPurseStepKeeps(db, step);
    case ReopenPurse(_, _, _, _) => OtherPurseStepKeeps(db, step);
    case EditPurse(admin, p, amount, deadline, now) => EditPurseKeeps(db, admin, p, amount, deadline, now);
    case Enrol(p, now) => EnrolStep(db, p, now);
  }

  lemma ContributionSideKeeps(db: Db, step: Step)
    requires Inv(db) && Admissible(db, step)
    requires step.RequestInvoice? || step.LogManual? || step.DecideFlag? || step.RunReconciliation?
    ensures Inv(Apply(db, step)) && Progress(db, Apply(db, step))
  {
    hide Inv, Progress;
    match step
    case RequestInvoice(i, answer, fee, now) => InvoiceStep(db, i, answer, fee, now);
    case LogManual(i, admin, amount, now) => ManualStep(db, i, admin, amount, now);
    case DecideFlag(i, admin, resolution, now) => FlagStep(db, i, admin, resolution, now);
    case RunReconciliation(mode, rows, answers, now) => ReconcileKeeps(db, rows, answers, now);
  }

  lemma EventSideKeeps(db: Db, step: Step)
    requires Inv(db) && (step.Deliver? || step.Reset? || step.ProcessCollection?)
    ensures Inv(Apply(db, step)) && Progress(db, Apply(db, step))
  {
    hide Inv, Progress;
    match step
    case Deliver(id, payload) => DeliverKeeps(db, id, payload);
    case Reset(e) => ResetKeeps(db, e);
    case ProcessCollection(e, now) => ProcessCollectionKeeps(db, e, now);
  }

  /** Every admissible step keeps the invariant, and makes only progress. */
  lemma StepKeeps(db: Db, step: Step)
    requires Inv(db) && Admissible(db, step)
    ensures Inv(Apply(db, step)) && Progress(db, Apply(db, step))
  {
    hide Inv, Progress, Apply, Admissible;
    if PayoutSide(step) {
      PayoutSideKeeps(db, step);
    } else if TransferSide(step) {
      TransferSideKeeps(db, step);
    } else if PurseSide(step) {
      PurseSideKeeps(db, step);
    } else if step.Deliver? || step.Reset? || step.ProcessCollection? {
      EventSideKeeps(db, step);
    } else {
      ContributionSideKeeps(db, step);
    }
  }

  lemma {:induction false} RunKeeps(db: Db, steps: seq<Step>)
    requires Inv(db) && ValidRun(db, steps)
    ensures Inv(Run(db, steps)) && Progress(db, Run(db, steps))
  {
    hide Inv, Progress, Apply, Admissible;
    ProgressReflexive(db);
    if steps != [] {
      var before := Run(db, steps[..|steps| - 1]);
      RunKeeps(db, steps[..|steps| - 1]);
      StepKeeps(before, steps[|steps| - 1]);
      ProgressTransitive(db, before, Run(db, steps));
    }
  }

  lemma EmptyInv(groups: nat)
    ensures Inv(EmptyDb(groups))
  {
  }

  lemma ReachableInv(db: Db)
    requires Reachable(db)
    ensures Inv(db)
  {
    var groups: nat, steps: seq<Step> :| ValidRun(EmptyDb(groups), steps) && db == Run(EmptyDb(groups), steps);
    EmptyInv(groups);
    RunKeeps(EmptyDb(groups), steps);
  }
}
