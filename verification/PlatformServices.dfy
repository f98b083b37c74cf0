/** The purse service, the webhook service and the reconciliation job, which
    drive the contribution and payout services. */
module PlatformServices {
  import opened Rows
  import opened Tables
  import opened ContributionServices
  import opened PayoutServices
  import C = Contributions
  import Pu = Purses
  import W = Webhooks
  import J = Jobs

  class PurseService {
    const db: Database
    const contributions: ContributionService

    constructor (db: Database)
      ensures this.db == db && contributions.db == db
    {
      this.db := db;
      contributions := new ContributionService(db);
    }

    method Create(admin: Admin, amount: Kobo, deadline: Time, now: Time) returns (r: Result<nat, AppError>)
      modifies db
      ensures (db.State(), r) == Pu.CreatePurse(old(db.State()), admin, amount, deadline, now)
    {
      if amount <= Pu.MINIMUM_AMOUNT { return Err(InvalidRequest); }
      if deadline <= now { return Err(InvalidDeadline); }
      if admin.group >= db.groups { return Err(NotFound); }
      db.purses := db.purses + [Purse(admin.group, amount, deadline, Open)];
      return Ok(|db.purses| - 1);
    }

    method AddMember(p: nat, now: Time) returns (r: Result<nat, AppError>)
      modifies db
      ensures (db.State(), r) == Pu.Enrol(old(db.State()), p, now)
    {
      if p >= |db.purses| { return Err(NotFound); }
      if db.purses[p].status != Open { return Err(PurseNotOpen); }
      db.contributions := db.contributions + [C.NewContribution(p, db.purses[p].amount, now)];
      return Ok(|db.contributions| - 1);
    }

    method Update(admin: Admin, p: nat, amount: Option<Kobo>, deadline: Option<Time>, now: Time)
      returns (r: Result<(), AppError>)
      requires contributions.db == db
      modifies db
      ensures (db.State(), r) == Pu.UpdatePurse(old(db.State()), admin, p, amount, deadline, now)
    {
      if amount != None && amount.value <= Pu.MINIMUM_AMOUNT { return Err(InvalidRequest); }
      if p >= |db.purses| { return Err(NotFound); }
      if db.purses[p].group != admin.group { return Err(WrongGroup); }
      if db.purses[p].status != Open { return Err(PurseNotOpen); }
      if deadline != None && deadline.value <= now { return Err(InvalidDeadline); }
      var before := Pu.Recorded(Edited, db.purses[p]);
      if amount != None {
        db.purses := db.purses[p := db.purses[p].(amount := amount.value)];
        contributions.UpdateAmountForPending(p, amount.value, now);
      }
      if deadline != None {
        db.purses := db.purses[p := db.purses[p].(deadline := deadline.value)];
      }
      db.audit := db.audit + [PurseChange(p, Edited, admin.id, before, Pu.Recorded(Edited, db.purses[p]))];
      return Ok(());
    }

    method Close(admin: Admin, p: nat) returns (r: Result<(), AppError>)
      modifies db
      ensures (db.State(), r) == Pu.ClosePurse(old(db.State()), admin, p)
    {
      if p >= |db.purses| { return Err(NotFound); }
      if db.purses[p].group != admin.group { return Err(WrongGroup); }
      var before := Pu.Recorded(ClosedByAdmin, db.purses[p]);
      db.purses := db.purses[p := db.purses[p].(status := Closed)];
      db.audit := db.audit + [PurseChange(p, ClosedByAdmin, admin.id, before, Pu.Recorded(ClosedByAdmin, db.purses[p]))];
      return Ok(());
    }

    method Reopen(admin: Admin, p: nat, deadline: Time, now: Time) returns (r: Result<(), AppError>)
      modifies db
      ensures (db.State(), r) == Pu.ReopenPurse(old(db.State()), admin, p, deadline, now)
    {
      if p >= |db.purses| { return Err(NotFound); }
      if db.purses[p].group != admin.group { return Err(WrongGroup); }
      if db.purses[p].status != Closed { return Err(PurseNotClosed); }
      if deadline <= now { return Err(InvalidDeadline); }
      var before := Pu.Recorded(Reopened, db.purses[p]);
      db.purses := db.purses[p := db.purses[p].(status := Open, deadline := deadline)];
      db.audit := db.audit + [PurseChange(p, Reopened, admin.id, before, Pu.Recorded(Reopened, db.purses[p]))];
      return Ok(());
    }
  }

  class WebhookService {
    const db: Database
    const contributions: ContributionService
    const payouts: PayoutService

    constructor (db: Database)
      ensures this.db == db && contributions.db == db && payouts.db == db
    {
      this.db := db;
      contributions := new ContributionService(db);
      payouts := new PayoutService(db);
    }

    /** The insert succeeds, or the unique constraint finds the earlier delivery. */
    method StoreEvent(id: string, payload: Payload) returns (e: nat, isNew: bool)
      modifies db
      ensures (db.State(), (e, isNew)) == W.StoreEvent(old(db.State()), id, payload)
    {
      var existing := W.FindEvent(db.webhookEvents, id);
      if existing != None { return existing.value, false; }
      db.webhookEvents := db.webhookEvents + [WebhookEvent(id, payload, false, None)];
      return |db.webhookEvents| - 1, true;
    }

    method MarkProcessed(e: nat, error: Option<ProcessingError>)
      modifies db
      ensures db.State() == W.MarkProcessed(old(db.State()), e, error)
    {
      if e >= |db.webhookEvents| { return; }
      db.webhookEvents := db.webhookEvents[e := db.webhookEvents[e].(processed := true, error := error)];
    }

    /** ok is false when the lookup raises on several matching rows. */
    method ProcessCollection(e: nat, now: Time) returns (ok: bool)
      requires contributions.db == db
      modifies db
      ensures (db.State(), ok) == W.ProcessCollection(old(db.State()), e, now)
    {
      if e >= |db.webhookEvents| { return true; }
      match db.webhookEvents[e].payload {
        case Collection(paymentRef, transactionRef, amount, paidOn) =>
          var found := W.Matching(db.contributions, W.RefsOf(paymentRef, transactionRef));
          if |found| > 1 { return false; }
          if |found| == 0 {
            MarkProcessed(e, Some(NoMatchingContribution));
            return true;
          }
          var status := db.contributions[found[0]].status;
          if status != Pending && status != Expired {
            MarkProcessed(e, Some(ContributionAlready(status)));
            return true;
          }
          var applied := contributions.ApplyPaymentConfirmation(found[0], amount, paidOn, Webhook, now);
          MarkProcessed(e, None);
        case RejectedPayment(ref) =>
          var found := W.Matching(db.contributions, {ref});
          if |found| > 1 { return false; }
          if |found| == 0 {
            MarkProcessed(e, Some(PaymentRejectedUnmatched));
          } else {
            MarkProcessed(e, Some(PaymentRejected(db.contributions[found[0]].status)));
          }
        case Transfer(_, _, _) => MarkProcessed(e, Some(NotACollectionEvent));
        case OtherEvent => MarkProcessed(e, Some(NotACollectionEvent));
      }
      return true;
    }

    method ProcessTransfer(e: nat) returns (ok: bool)
      requires payouts.db == db
      modifies db
      ensures (db.State(), ok) == W.ProcessTransfer(old(db.State()), e)
    {
      if e >= |db.webhookEvents| { return true; }
      match db.webhookEvents[e].payload {
        case Transfer(ref, success, reason) =>
          var found := W.MatchingPayouts(db.payouts, ref);
          if |found| > 1 { return false; }
          if |found| == 0 {
            MarkProcessed(e, Some(NoMatchingPayout));
            return true;
          }
          var status := db.payouts[found[0]].status;
          if status != Processing {
            MarkProcessed(e, Some(PayoutAlready(status)));
            return true;
          }
          var moved := payouts.ApplyTransferConfirmation(found[0], success, reason);
          MarkProcessed(e, None);
        case Collection(_, _, _, _) => MarkProcessed(e, Some(NotATransferEvent));
        case RejectedPayment(_) => MarkProcessed(e, Some(NotATransferEvent));
        case OtherEvent => MarkProcessed(e, Some(NotATransferEvent));
      }
      return true;
    }
  }

  /** The rows a run looks at, in some order. */
  method SelectRows(db: Database, mode: J.Mode, now: Time) returns (rows: seq<nat>)
    ensures J.IsSelection(db.contributions, mode, now, rows)
  {
    rows := [];
    for i := 0 to |db.contributions|
      invariant forall x :: 0 <= x < |rows| ==> rows[x] < i && J.Selected(db.contributions[rows[x]], mode, now)
      invariant forall x, y :: 0 <= x < y < |rows| ==> rows[x] != rows[y]
      invariant forall j :: 0 <= j < i && J.Selected(db.contributions[j], mode, now) ==> j in rows
    {
      if J.Selected(db.contributions[i], mode, now) {
        rows := rows + [i];
      }
    }
  }

  lemma RowsExist(cs: seq<Contribution>, mode: J.Mode, now: Time, rows: seq<nat>)
    requires J.IsSelection(cs, mode, now, rows)
    ensures forall x :: 0 <= x < |rows| ==> rows[x] < |cs|
  {
  }

  method RunReconciliation(db: Database, mode: J.Mode, answers: J.Answers, now: Time)
    returns (checked: nat, updated: nat, ghost selected: seq<nat>)
    modifies db
    ensures J.IsSelection(old(db.contributions), mode, now, selected)
    ensures (db.State(), updated) == J.Reconcile(old(db.State()), selected, answers, now)
    ensures checked == |selected|
  {
    hide J.IsSelection;
    var rows := SelectRows(db, mode, now);
    selected := rows;
    assert forall x :: 0 <= x < |rows| ==> rows[x] < |db.contributions| by { RowsExist(db.contributions, mode, now, rows); }
    var service := new ContributionService(db);
    checked, updated := 0, 0;
    for x := 0 to |rows|
      invariant checked == x
      invariant |db.contributions| == |old(db.contributions)|
      invariant (db.State(), updated) == J.Reconcile(old(db.State()), rows[..x], answers, now)
    {
      checked := checked + 1;
      assert rows[..x + 1][..x] == rows[..x];
      var c := db.contributions[rows[x]];
      if c.invoice != None && c.invoice.value in answers {
        var paid := answers[c.invoice.value];
        var applied := service.ApplyPaymentConfirmation(rows[x], paid.amount, paid.paidOn, ReconciliationJob, now);
        if applied {
          updated := updated + 1;
        }
        continue;
      }
      service.ExpireIfNeeded(rows[x], now);
    }
    assert rows[..|rows|] == rows;
  }
}
