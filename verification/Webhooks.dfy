/** Provider notifications: stored once per provider event id, then processed,
    and possibly processed again. */
module Webhooks {
  import opened Rows
  import opened Contributions
  import opened Payouts

  /** The event with this provider id, if it was already delivered. */
  function FindEvent(events: seq<WebhookEvent>, id: string): (r: Option<nat>)
    ensures r.Some? ==> r.value < |events| && events[r.value].providerEventId == id
    ensures r.None? ==> forall e :: 0 <= e < |events| ==> events[e].providerEventId != id
  {
    if events == [] then None
    else if events[|events| - 1].providerEventId == id then Some(|events| - 1)
    else FindEvent(events[..|events| - 1], id)
  }

  /** The event's id, and whether this delivery is the first. */
  function StoreEvent(db: Db, id: string, payload: Payload): (Db, (nat, bool)) {
    match FindEvent(db.webhookEvents, id)
    case Some(e) => (db, (e, false))
    case None =>
      (db.(webhookEvents := db.webhookEvents + [WebhookEvent(id, payload, false, None)]), (|db.webhookEvents|, true))
  }

  function MarkProcessed(db: Db, e: nat, error: Option<ProcessingError>): Db {
    if e >= |db.webhookEvents| then db
    else db.(webhookEvents := db.webhookEvents[e := db.webhookEvents[e].(processed := true, error := error)])
  }

  /** An admin asks for an event to be processed again. */
  function ResetEvent(db: Db, e: nat): Db {
    if e >= |db.webhookEvents| then db
    else db.(webhookEvents := db.webhookEvents[e := db.webhookEvents[e].(processed := false, error := None)])
  }

  predicate InvoiceIn(c: Contribution, refs: set<Ref>) {
    c.invoice.Some? && c.invoice.value in refs
  }

  /** The contributions whose invoice is one of `refs`, oldest first. */
  function Matching(cs: seq<Contribution>, refs: set<Ref>): (r: seq<nat>)
    ensures forall x :: 0 <= x < |r| ==> r[x] < |cs| && InvoiceIn(cs[r[x]], refs)
    ensures forall x, y :: 0 <= x < y < |r| ==> r[x] < r[y]
    ensures forall i :: 0 <= i < |cs| && InvoiceIn(cs[i], refs) ==> i in r
  {
    if cs == [] then []
    else
      var n := |cs| - 1;
      Matching(cs[..n], refs) + if InvoiceIn(cs[n], refs) then [n] else []
  }

  /** The references a collection names; an empty one names nothing. */
  function RefsOf(paymentRef: Ref, transactionRef: Ref): set<Ref> {
    {paymentRef, transactionRef} - {""}
  }

  /** Event e names contribution i alone. */
  function FinishCollection(db: Db, e: nat, i: nat, amount: nat, paidOn: Option<Time>, now: Time): Db
    requires i < |db.contributions|
  {
    var c := db.contributions[i];
    if !Unresolved(c) then MarkProcessed(db, e, Some(ContributionAlready(c.status)))
    else MarkProcessed(ConfirmPayment(db, i, amount, paidOn, Webhook, now).0, e, None)
  }

  /** false when the lookup finds more than one row and raises. */
  function ProcessCollection(db: Db, e: nat, now: Time): (Db, bool) {
    if e >= |db.webhookEvents| then (db, true)
    else match db.webhookEvents[e].payload
      case Collection(paymentRef, transactionRef, amount, paidOn) =>
        var found := Matching(db.contributions, RefsOf(paymentRef, transactionRef));
        if |found| > 1 then (db, false)
        else if |found| == 0 then (MarkProcessed(db, e, Some(NoMatchingContribution)), true)
        else (FinishCollection(db, e, found[0], amount, paidOn, now), true)
      case RejectedPayment(ref) =>
        var found := Matching(db.contributions, {ref});
        if |found| > 1 then (db, false)
        else if |found| == 0 then (MarkProcessed(db, e, Some(PaymentRejectedUnmatched)), true)
        else (MarkProcessed(db, e, Some(PaymentRejected(db.contributions[found[0]].status))), true)
      case Transfer(_, _, _) => (MarkProcessed(db, e, Some(NotACollectionEvent)), true)
      case OtherEvent => (MarkProcessed(db, e, Some(NotACollectionEvent)), true)
  }

  /** The payouts sent under this transfer reference, oldest first. */
  function MatchingPayouts(ps: seq<Payout>, ref: Ref): (r: seq<nat>)
    ensures forall x :: 0 <= x < |r| ==> r[x] < |ps| && ps[r[x]].transferRef == Some(ref)
    ensures forall x, y :: 0 <= x < y < |r| ==> r[x] < r[y]
    ensures forall k :: 0 <= k < |ps| && ps[k].transferRef == Some(ref) ==> k in r
  {
    if ps == [] then []
    else
      var n := |ps| - 1;
      MatchingPayouts(ps[..n], ref) + if ps[n].transferRef == Some(ref) then [n] else []
  }

  /** Event e names payout k alone. */
  function FinishTransfer(db: Db, e: nat, k: nat, success: bool, reason: Option<string>): Db
    requires k < |db.payouts|
  {
    var p := db.payouts[k];
    if !p.status.Processing? then MarkProcessed(db, e, Some(PayoutAlready(p.status)))
    else MarkProcessed(ApplyTransferConfirmation(db, k, success, reason).0, e, None)
  }

  function ProcessTransfer(db: Db, e: nat): (Db, bool) {
    if e >= |db.webhookEvents| then (db, true)
    else match db.webhookEvents[e].payload
      case Transfer(ref, success, reason) =>
        var found := MatchingPayouts(db.payouts, ref);
        if |found| > 1 then (db, false)
        else if |found| == 0 then (MarkProcessed(db, e, Some(NoMatchingPayout)), true)
        else (FinishTransfer(db, e, found[0], success, reason), true)
      case Collection(_, _, _, _) => (MarkProcessed(db, e, Some(NotATransferEvent)), true)
      case RejectedPayment(_) => (MarkProcessed(db, e, Some(NotATransferEvent)), true)
      case OtherEvent => (MarkProcessed(db, e, Some(NotATransferEvent)), true)
  }
}
