/** The contribution service: each method brings the tables to the state its
    specification function names. */
module ContributionServices {
  import opened Rows
  import opened Tables
  import C = Contributions

  class ContributionService {
    const db: Database

    constructor (db: Database)
      ensures this.db == db
    {
      this.db := db;
    }

    /** Adds the contribution event and its audit entry. */
    method WriteEvent(i: nat, from: ContributionStatus, to: ContributionStatus, actor: ActorType, actorId: Option<nat>)
      modifies db
      ensures db.State() == old(db.State()).(
        contributionEvents := old(db.contributionEvents) + [ContributionEvent(i, from, to, actor, actorId)],
        audit := old(db.audit) + [ContributionTransition(i, from, to, C.AuditActorOf(actor), actorId)])
    {
      db.contributionEvents := db.contributionEvents + [ContributionEvent(i, from, to, actor, actorId)];
      db.audit := db.audit + [ContributionTransition(i, from, to, C.AuditActorOf(actor), actorId)];
    }

    method ExpireIfNeeded(i: nat, now: Time)
      requires i < |db.contributions|
      modifies db
      ensures db.State() == C.ExpireIfNeeded(old(db.State()), i, now)
    {
      var c := db.contributions[i];
      if c.status == Pending && c.expiresAt != None {
        if c.expiresAt.value <= now {
          WriteEvent(i, Pending, Expired, ReconciliationJob, None);
          db.contributions := db.contributions[i := c.(status := Expired, updatedAt := now)];
        }
      }
    }

    /** answer is what the provider's call returns; None when it raises. */
    method GenerateInvoice(i: nat, answer: Option<C.ProviderInvoice>, fee: Option<nat>, now: Time)
      returns (r: Result<(), AppError>)
      modifies db
      ensures (db.State(), r) == C.GenerateInvoice(old(db.State()), i, answer, fee, now)
    {
      if i >= |db.contributions| { return Err(NotFound); }
      ExpireIfNeeded(i, now);
      var c := db.contributions[i];
      if c.purse >= |db.purses| { return Err(NotFound); }
      var purse := db.purses[c.purse];
      if purse.status != Open || purse.deadline <= now { return Err(PurseClosed); }
      var hasLiveInvoice := c.status == Pending && c.account != None && c.expiresAt != None && c.expiresAt.value > now;
      if hasLiveInvoice { return Ok(()); }
      if c.status != Pending && c.status != Expired { return Err(InvoiceNotGeneratable); }
      var outstanding := c.expected - c.received;
      if answer == None { return Err(ProviderFailed); }
      var invoice := answer.value;
      db.invoices := db.invoices[invoice.ref := IssuedInvoice(i, outstanding)];
      var from := c.status;
      c := c.(invoice := Some(invoice.ref), account := invoice.account, expiresAt := Some(invoice.expiresAt),
              feePercent := fee, updatedAt := now);
      if from == Expired {
        WriteEvent(i, from, Pending, ReconciliationJob, None);
        c := c.(status := Pending);
      }
      db.contributions := db.contributions[i := c];
      return Ok(());
    }

    /** applied is false when the contribution was already resolved. */
    method ApplyPaymentConfirmation(i: nat, amountPaid: nat, paidOn: Option<Time>, actor: ActorType, now: Time)
      returns (applied: bool)
      requires i < |db.contributions|
      modifies db
      ensures (db.State(), applied) == C.ConfirmPayment(old(db.State()), i, amountPaid, paidOn, actor, now)
    {
      var c := db.contributions[i];
      if c.status != Pending && c.status != Expired { return false; }
      var from := c.status;
      var newTotal := c.received + amountPaid;
      if newTotal == c.expected {
        c := c.(status := Paid, paidAt := if paidOn != None then paidOn else Some(now));
      } else {
        c := c.(status := Flagged);
      }
      c := c.(received := newTotal, updatedAt := now);
      db.credits := db.credits + [Credit(i, c.invoice, amountPaid)];
      db.contributions := db.contributions[i := c];
      WriteEvent(i, from, c.status, actor, None);
      return true;
    }

    method MarkManual(i: nat, admin: Admin, amount: Kobo, now: Time) returns (r: Result<(), AppError>)
      modifies db
      ensures (db.State(), r) == C.MarkManual(old(db.State()), i, admin, amount, now)
    {
      if amount <= 0 { return Err(InvalidRequest); }
      if i >= |db.contributions| { return Err(NotFound); }
      var c := db.contributions[i];
      if c.status == Paid || c.status == PaidManual { return Err(AlreadyResolved); }
      var from := c.status;
      db.contributions := db.contributions[i :=
        c.(received := c.received + amount, status := PaidManual, paidAt := Some(now), updatedAt := now)];
      db.credits := db.credits + [Credit(i, None, amount)];
      WriteEvent(i, from, PaidManual, RepManual, Some(admin.id));
      return Ok(());
    }

    method ResolveFlag(i: nat, admin: Admin, resolution: C.Resolution, now: Time) returns (r: Result<(), AppError>)
      modifies db
      ensures (db.State(), r) == C.ResolveFlag(old(db.State()), i, admin, resolution, now)
    {
      if i >= |db.contributions| { return Err(NotFound); }
      var c := db.contributions[i];
      if c.status != Flagged { return Err(NotFlagged); }
      var from := c.status;
      match resolution {
        case AcceptPartial =>
          c := c.(status := Paid, paidAt := Some(now));
        case RequestTopup =>
          c := c.(status := Pending, invoice := None, account := None, expiresAt := None, feePercent := None);
        case Refund => return Err(RefundNotSupported);
        case UnknownResolution => return Err(InvalidResolution);
      }
      c := c.(updatedAt := now);
      db.contributions := db.contributions[i := c];
      WriteEvent(i, from, c.status, RepManual, Some(admin.id));
      return Ok(());
    }

    method UpdateAmountForPending(purse: nat, amount: Kobo, now: Time)
      modifies db
      ensures db.State() == C.UpdateAmountForPending(old(db.State()), purse, amount, now)
    {
      ghost var cs := db.contributions;
      for i := 0 to |db.contributions|
        invariant |db.contributions| == |cs|
        invariant db.State() == old(db.State()).(contributions := db.contributions)
        invariant forall j :: 0 <= j < i ==> db.contributions[j] == C.EditRow(cs[j], purse, amount, now)
        invariant forall j :: i <= j < |cs| ==> db.contributions[j] == cs[j]
      {
        var c := db.contributions[i];
        if c.purse == purse && c.status == Pending {
          if c.expected != amount || c.invoice != None {
            db.contributions := db.contributions[i :=
              c.(expected := amount, invoice := None, account := None, expiresAt := None, feePercent := None,
                 updatedAt := now)];
          }
        }
      }
      assert db.contributions == C.EditRows(cs, purse, amount, now);
    }
  }
}
