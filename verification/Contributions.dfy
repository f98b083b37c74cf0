/** The contribution state machine: what each service call does to the rows. */
module Contributions {
  import opened Rows

  /** A contribution that can still receive an online payment. */
  predicate Unresolved(c: Contribution) {
    c.status.Pending? || c.status.Expired?
  }

  predicate Settled(c: Contribution) {
    c.status.Paid? || c.status.PaidManual?
  }

  function AuditActorOf(actor: ActorType): AuditActorType {
    match actor
    case Webhook => ByWebhook
    case ReconciliationJob => ByReconciliationJob
    case RepManual => ByGroupAdmin
  }

  function Put(db: Db, i: nat, c: Contribution): Db
    requires i < |db.contributions|
  {
    db.(contributions := db.contributions[i := c])
  }

  /** Row i becomes c, and both event tables record the change of status. */
  function Transition(db: Db, i: nat, c: Contribution, actor: ActorType, actorId: Option<nat>): Db
    requires i < |db.contributions|
  {
    var from := db.contributions[i].status;
    Put(db, i, c).(
      contributionEvents := db.contributionEvents + [ContributionEvent(i, from, c.status, actor, actorId)],
      audit := db.audit + [ContributionTransition(i, from, c.status, AuditActorOf(actor), actorId)])
  }

  function ClearInvoice(c: Contribution): Contribution {
    c.(invoice := None, account := None, expiresAt := None, feePercent := None)
  }

  // ----- expiry -----

  predicate Lapsed(c: Contribution, now: Time) {
    c.status.Pending? && c.expiresAt.Some? && c.expiresAt.value <= now
  }

  function ExpireRow(c: Contribution, now: Time): Contribution {
    if Lapsed(c, now) then c.(status := Expired, updatedAt := now) else c
  }

  function ExpireIfNeeded(db: Db, i: nat, now: Time): Db
    requires i < |db.contributions|
  {
    var c := db.contributions[i];
    if Lapsed(c, now) then Transition(db, i, ExpireRow(c, now), ReconciliationJob, None) else db
  }

  // ----- invoices -----

  /** What the provider hands back for a new invoice. */
  datatype ProviderInvoice = ProviderInvoice(ref: Ref, account: Option<string>, expiresAt: Time)

  predicate HasLiveInvoice(c: Contribution, now: Time) {
    c.status.Pending? && c.account.Some? && c.expiresAt.Some? && c.expiresAt.value > now
  }

  function Outstanding(c: Contribution): Kobo {
    c.expected - c.received
  }

  function InvoicedRow(c: Contribution, inv: ProviderInvoice, fee: Option<nat>, now: Time): Contribution {
    c.(status := Pending, invoice := Some(inv.ref), account := inv.account,
       expiresAt := Some(inv.expiresAt), feePercent := fee, updatedAt := now)
  }

  /** Expiry is applied, and stays applied, before any of the refusals. The
      provider's answer is None when its call raises. */
  function GenerateInvoice(db: Db, i: nat, answer: Option<ProviderInvoice>, fee: Option<nat>, now: Time)
    : (Db, Result<(), AppError>)
  {
    if i >= |db.contributions| then (db, Err(NotFound)) else
      var db1 := ExpireIfNeeded(db, i, now);
      var c := db1.contributions[i];
      if c.purse >= |db1.purses| then (db1, Err(NotFound))
      else if !db1.purses[c.purse].status.Open? || db1.purses[c.purse].deadline <= now then (db1, Err(PurseClosed))
      else if HasLiveInvoice(c, now) then (db1, Ok(()))
      else if !Unresolved(c) then (db1, Err(InvoiceNotGeneratable))
      else if answer.None? then (db1, Err(ProviderFailed))
      else (RecordInvoice(db1, i, answer.value, fee, now), Ok(()))
  }

  function RecordInvoice(db: Db, i: nat, inv: ProviderInvoice, fee: Option<nat>, now: Time): Db
    requires i < |db.contributions|
  {
    var c := db.contributions[i];
    var issued := db.(invoices := db.invoices[inv.ref := IssuedInvoice(i, Outstanding(c))]);
    if c.status.Expired?
    then Transition(issued, i, InvoicedRow(c, inv, fee, now), ReconciliationJob, None)
    else Put(issued, i, InvoicedRow(c, inv, fee, now))
  }

  // ----- confirmations -----

  function ConfirmRow(c: Contribution, amount: nat, paidOn: Option<Time>, now: Time): Contribution {
    if c.received + amount == c.expected
    then c.(status := Paid, received := c.received + amount, updatedAt := now,
            paidAt := if paidOn.Some? then paidOn else Some(now))
    else c.(status := Flagged, received := c.received + amount, updatedAt := now)
  }

  /** The single decision point for a confirmed payment; false when the
      contribution was already resolved and nothing happened. */
  function ConfirmPayment(db: Db, i: nat, amount: nat, paidOn: Option<Time>, actor: ActorType, now: Time): (Db, bool)
    requires i < |db.contributions|
  {
    var c := db.contributions[i];
    if !Unresolved(c) then (db, false)
    else
      (Transition(db.(credits := db.credits + [Credit(i, c.invoice, amount)]),
                  i, ConfirmRow(c, amount, paidOn, now), actor, None), true)
  }

  // ----- a rep's decisions -----

  function ManualRow(c: Contribution, amount: Kobo, now: Time): Contribution {
    c.(status := PaidManual, received := c.received + amount, paidAt := Some(now), updatedAt := now)
  }

  function MarkManual(db: Db, i: nat, admin: Admin, amount: Kobo, now: Time): (Db, Result<(), AppError>) {
    if amount <= 0 then (db, Err(InvalidRequest))
    else if i >= |db.contributions| then (db, Err(NotFound))
    else
      var c := db.contributions[i];
      if Settled(c) then (db, Err(AlreadyResolved))
      else
        (Transition(db.(credits := db.credits + [Credit(i, None, amount)]), i, ManualRow(c, amount, now),
                    RepManual, Some(admin.id)), Ok(()))
  }

  datatype Resolution = AcceptPartial | RequestTopup | Refund | UnknownResolution

  function ResolveFlag(db: Db, i: nat, admin: Admin, resolution: Resolution, now: Time): (Db, Result<(), AppError>) {
    if i >= |db.contributions| then (db, Err(NotFound))
    else
      var c := db.contributions[i];
      if !c.status.Flagged? then (db, Err(NotFlagged))
      else match resolution
        case AcceptPartial =>
          (Transition(db, i, c.(status := Paid, paidAt := Some(now), updatedAt := now), RepManual, Some(admin.id)), Ok(()))
        case RequestTopup =>
          (Transition(db, i, ClearInvoice(c).(status := Pending, updatedAt := now), RepManual, Some(admin.id)), Ok(()))
        case Refund => (db, Err(RefundNotSupported))
        case UnknownResolution => (db, Err(InvalidResolution))
  }

  // ----- purse edits -----

  /** Only a pending row follows an edit of the purse's amount, and it loses its invoice. */
  function EditRow(c: Contribution, purse: nat, amount: Kobo, now: Time): Contribution {
    if c.purse == purse && c.status.Pending? && (c.expected != amount || c.invoice.Some?)
    then ClearInvoice(c).(expected := amount, updatedAt := now)
    else c
  }

  function EditRows(cs: seq<Contribution>, purse: nat, amount: Kobo, now: Time): (r: seq<Contribution>)
    ensures |r| == |cs| && forall i :: 0 <= i < |cs| ==> r[i] == EditRow(cs[i], purse, amount, now)
  {
    seq(|cs|, i requires 0 <= i < |cs| => EditRow(cs[i], purse, amount, now))
  }

  function UpdateAmountForPending(db: Db, purse: nat, amount: Kobo, now: Time): Db {
    db.(contributions := EditRows(db.contributions, purse, amount, now))
  }

  function NewContribution(purse: nat, amount: Kobo, now: Time): Contribution {
    Contribution(purse, amount, 0, Pending, None, None, None, None, None, now)
  }
}
