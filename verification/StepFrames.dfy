/** Which tables each kind of step leaves alone. */
module StepFrames {
  import opened Rows
  import opened Contributions
  import opened Platform
  import Jobs
  import Webhooks

  // ----- frames -----

  predicate PayoutsLeft(db: Db, db': Db) {
    db'.payouts == db.payouts && db'.allocations == db.allocations
  }

  /** No new payout and no new allocation. */
  predicate NothingRequested(db: Db, db': Db) {
    |db'.payouts| == |db.payouts| && db'.allocations == db.allocations
  }

  predicate NothingIssued(db: Db, db': Db) {
    db'.invoices == db.invoices
  }

  predicate ContributionsLeft(db: Db, db': Db) {
    && db'.contributions == db.contributions && db'.contributionEvents == db.contributionEvents
    && db'.credits == db.credits && db'.invoices == db.invoices
  }

  /** Purses as they were, no row more or less, and what each row is expected to bring. */
  ghost predicate PricesLeft(db: Db, db': Db) {
    && db'.purses == db.purses
    && |db'.contributions| == |db.contributions|
    && (forall i :: 0 <= i < |db.contributions| ==>
          db'.contributions[i].expected == db.contributions[i].expected && db'.contributions[i].purse == db.contributions[i].purse)
    && db.contributionEvents <= db'.contributionEvents
  }

  /** Event e, and no other row of any table, is recorded as processed. */
  ghost predicate OnlyProcessed(db: Db, db': Db, e: nat, error: Option<ProcessingError>) {
    e < |db.webhookEvents| &&
    db' == db.(webhookEvents := db.webhookEvents[e := db.webhookEvents[e].(processed := true, error := error)])
  }

  /** A step that has to do with contributions only. */
  predicate ContributionSide(step: Step) {
    step.RequestInvoice? || step.LogManual? || step.DecideFlag? || step.RunReconciliation? || EventSide(step)
  }

  predicate EventSide(step: Step) {
    step.Deliver? || step.Reset? || step.ProcessCollection?
  }

  // ----- one kind of step at a time -----

  lemma {:induction false} ReconcileFrame(db: Db, rows: seq<nat>, answers: Jobs.Answers, now: Time)
    requires forall x :: 0 <= x < |rows| ==> rows[x] < |db.contributions|
    ensures var db' := Jobs.Reconcile(db, rows, answers, now).0;
      PayoutsLeft(db, db') && NothingIssued(db, db') && PricesLeft(db, db') && db'.webhookEvents == db.webhookEvents
  {
    if rows != [] {
      ReconcileFrame(db, rows[..|rows| - 1], answers, now);
    }
  }

  lemma JobFrame(db: Db, step: Step)
    requires step.RunReconciliation?
    ensures var db' := Apply(db, step);
      PayoutsLeft(db, db') && NothingIssued(db, db') && PricesLeft(db, db') && db'.webhookEvents == db.webhookEvents
  {
    if forall x :: 0 <= x < |step.rows| ==> step.rows[x] < |db.contributions| {
      ReconcileFrame(db, step.rows, step.answers, step.now);
    }
  }

  lemma PurseFrame(db: Db, step: Step)
    requires PurseSide(step)
    ensures var db' := Apply(db, step);
      PayoutsLeft(db, db') && NothingIssued(db, db') && db'.webhookEvents == db.webhookEvents
  {
  }

  /** A row that keeps its price and purse keeps all prices. */
  lemma TransitionFrame(db: Db, i: nat, c: Contribution, actor: ActorType, actorId: Option<nat>)
    requires i < |db.contributions|
    requires c.expected == db.contributions[i].expected && c.purse == db.contributions[i].purse
    ensures var db' := Transition(db, i, c, actor, actorId);
      && PayoutsLeft(db, db') && PricesLeft(db, db') && db'.webhookEvents == db.webhookEvents && NothingIssued(db, db')
  {
  }

  lemma RepDecisionFrame(db: Db, step: Step)
    requires step.LogManual? || step.DecideFlag?
    ensures var db' := Apply(db, step);
      PayoutsLeft(db, db') && PricesLeft(db, db') && db'.webhookEvents == db.webhookEvents && NothingIssued(db, db')
  {
  }

  lemma RecordFrame(db: Db, i: nat, inv: ProviderInvoice, fee: Option<nat>, now: Time)
    requires i < |db.contributions|
    ensures var db' := RecordInvoice(db, i, inv, fee, now);
      PayoutsLeft(db, db') && PricesLeft(db, db') && db'.webhookEvents == db.webhookEvents
  {
  }

  lemma InvoiceFrame(db: Db, step: Step)
    requires step.RequestInvoice?
    ensures var db' := Apply(db, step);
      PayoutsLeft(db, db') && PricesLeft(db, db') && db'.webhookEvents == db.webhookEvents
  {
    hide Transition, RecordInvoice;
    var i := step.contribution;
    if i < |db.contributions| {
      TransitionFrame(db, i, ExpireRow(db.contributions[i], step.now), ReconciliationJob, None);
      var db1 := ExpireIfNeeded(db, i, step.now);
      if step.answer.Some? {
        RecordFrame(db1, i, step.answer.value, step.fee, step.now);
      }
    }
  }

  lemma ConfirmFrame(db: Db, e: nat, i: nat, amount: nat, paidOn: Option<Time>, now: Time)
    requires i < |db.contributions|
    ensures var db' := Webhooks.FinishCollection(db, e, i, amount, paidOn, now);
      PayoutsLeft(db, db') && NothingIssued(db, db') && PricesLeft(db, db')
  {
  }

  lemma MarkFrame(db: Db, e: nat, error: Option<ProcessingError>)
    ensures var db' := Webhooks.MarkProcessed(db, e, error);
      ContributionsLeft(db, db') && PayoutsLeft(db, db') && PricesLeft(db, db')
  {
  }

  lemma CollectionFrame(db: Db, e: nat, now: Time)
    ensures var db' := Webhooks.ProcessCollection(db, e, now).0;
      PayoutsLeft(db, db') && NothingIssued(db, db') && PricesLeft(db, db')
  {
    hide Webhooks.FinishCollection, Webhooks.MarkProcessed;
    if e < |db.webhookEvents| {
      match db.webhookEvents[e].payload
      case Collection(r1, r2, amount, paidOn) =>
        var found := Webhooks.Matching(db.contributions, Webhooks.RefsOf(r1, r2));
        MarkFrame(db, e, Some(NoMatchingContribution));
        if |found| == 1 {
          ConfirmFrame(db, e, found[0], amount, paidOn, now);
        }
      case RejectedPayment(ref) =>
        var found := Webhooks.Matching(db.contributions, {ref});
        MarkFrame(db, e, Some(PaymentRejectedUnmatched));
        if |found| == 1 {
          MarkFrame(db, e, Some(PaymentRejected(db.contributions[found[0]].status)));
        }
      case _ => MarkFrame(db, e, Some(NotACollectionEvent));
    }
  }

  lemma EventFrame(db: Db, step: Step)
    requires EventSide(step)
    ensures var db' := Apply(db, step); PayoutsLeft(db, db') && NothingIssued(db, db') && PricesLeft(db, db')
  {
    hide Webhooks.ProcessCollection;
    if step.ProcessCollection? {
      CollectionFrame(db, step.event, step.now);
    }
  }

  lemma FinishTransferFrame(db: Db, e: nat, k: nat, success: bool, reason: Option<string>)
    requires k < |db.payouts|
    ensures var db' := Webhooks.FinishTransfer(db, e, k, success, reason);
      ContributionsLeft(db, db') && NothingRequested(db, db') && db'.purses == db.purses
  {
  }

  lemma TransferEventFrame(db: Db, e: nat)
    ensures var db' := Webhooks.ProcessTransfer(db, e).0;
      ContributionsLeft(db, db') && NothingRequested(db, db') && db'.purses == db.purses
  {
    hide Webhooks.FinishTransfer, Webhooks.MarkProcessed;
    if e < |db.webhookEvents| {
      match db.webhookEvents[e].payload
      case Transfer(ref, success, reason) =>
        var found := Webhooks.MatchingPayouts(db.payouts, ref);
        MarkFrame(db, e, Some(NoMatchingPayout));
        if |found| == 1 {
          FinishTransferFrame(db, e, found[0], success, reason);
        }
      case _ => MarkFrame(db, e, Some(NotATransferEvent));
    }
  }

  lemma TransferFrame(db: Db, step: Step)
    requires TransferSide(step)
    ensures var db' := Apply(db, step);
      ContributionsLeft(db, db') && NothingRequested(db, db') && db'.purses == db.purses
  {
    hide Webhooks.ProcessTransfer;
    if step.ProcessTransfer? {
      TransferEventFrame(db, step.event);
    }
  }

  lemma PayoutFrame(db: Db, step: Step)
    requires PayoutSide(step)
    ensures var db' := Apply(db, step);
      && ContributionsLeft(db, db') && db'.purses == db.purses && db'.webhookEvents == db.webhookEvents
      && (step.RequestPayout? || NothingRequested(db, db'))
  {
  }

  // ----- all steps -----

  lemma StepFrame(db: Db, step: Step)
    ensures !step.RequestPayout? ==> NothingRequested(db, Apply(db, step))
    ensures !step.RequestInvoice? ==> NothingIssued(db, Apply(db, step))
    ensures PurseSide(step) || ContributionSide(step) ==> PayoutsLeft(db, Apply(db, step))
    ensures PayoutSide(step) || TransferSide(step) ==>
      ContributionsLeft(db, Apply(db, step)) && Apply(db, step).purses == db.purses
    ensures ContributionSide(step) ==> PricesLeft(db, Apply(db, step))
  {
    hide Apply, PricesLeft;
    if PayoutSide(step) {
      PayoutFrame(db, step);
    } else if PurseSide(step) {
      PurseFrame(db, step);
    } else if TransferSide(step) {
      TransferFrame(db, step);
    } else if step.RunReconciliation? {
      JobFrame(db, step);
    } else if EventSide(step) {
      EventFrame(db, step);
    } else if step.RequestInvoice? {
      InvoiceFrame(db, step);
    } else {
      RepDecisionFrame(db, step);
    }
  }
}
