/** What opening, joining, closing and reopening a purse do, when a payout request
    is granted, and what a delivery stores. */
module PurseEffects {
  import opened Rows
  import opened Payouts
  import opened Platform
  import opened RunGuarantees
  import Webhooks

  /** A purse is opened, empty and open, exactly for an amount above one hundred
      naira, a deadline still to come, and a group that exists. */
  lemma OpeningOutcome(db: Db, admin: Admin, amount: Kobo, deadline: Time, now: Time)
    ensures var db' := Apply(db, OpenPurse(admin, amount, deadline, now));
      if amount > 10_000 && deadline > now && admin.group < db.groups
      then db' == db.(purses := db.purses + [Purse(admin.group, amount, deadline, Open)])
      else db' == db
  {
  }

  /** Whoever joins an open purse owes its price of now, has paid nothing and holds no invoice. */
  lemma EnrolmentOutcome(db: Db, p: nat, now: Time)
    ensures var db' := Apply(db, Enrol(p, now));
      if p < |db.purses| && db.purses[p].status == Open
      then
        && |db'.contributions| == |db.contributions| + 1 && db.contributions <= db'.contributions
        && db' == db.(contributions := db'.contributions)
        && var c := db'.contributions[|db.contributions|];
           && c.purse == p && c.expected == db.purses[p].amount && c.received == 0 && c.status == Pending
           && c.invoice.None? && c.account.None? && c.expiresAt.None? && c.feePercent.None? && c.paidAt.None?
      else db' == db
  {
  }

  /** Facts an audit row about a purse's state carries. */
  function StatusOnly(s: PurseStatus): PurseFacts {
    PurseFacts(None, None, Some(s))
  }

  /** Closing is open to the group's admins in any state, and leaves the purse closed. */
  lemma ClosingOutcome(db: Db, admin: Admin, p: nat)
    ensures var db' := Apply(db, ClosePurse(admin, p));
      if p < |db.purses| && db.purses[p].group == admin.group
      then db' == db.(
        purses := db.purses[p := db.purses[p].(status := Closed)],
        audit := db.audit + [PurseChange(p, ClosedByAdmin, admin.id, StatusOnly(db.purses[p].status), StatusOnly(Closed))])
      else db' == db
  {
  }

  /** Only a closed purse reopens, with a deadline still to come. */
  lemma ReopeningOutcome(db: Db, admin: Admin, p: nat, deadline: Time, now: Time)
    ensures var db' := Apply(db, ReopenPurse(admin, p, deadline, now));
      if p < |db.purses| && db.purses[p].group == admin.group && db.purses[p].status == Closed && deadline > now
      then db' == db.(
        purses := db.purses[p := db.purses[p].(status := Open, deadline := deadline)],
        audit := db.audit + [PurseChange(p, Reopened, admin.id,
          PurseFacts(None, Some(db.purses[p].deadline), Some(Closed)), PurseFacts(None, Some(deadline), Some(Open)))])
      else db' == db
  {
  }

  /** From closing to reopening, nobody joins the purse and no invoice is issued in
      it: the steps that could do either are refused. */
  lemma ClosedPurseTakesNobody(db: Db, admin: Admin, p: nat, step: Step)
    requires p < |db.purses| && db.purses[p].group == admin.group
    requires Admissible(Apply(db, ClosePurse(admin, p)), step)
    ensures var closed := Apply(db, ClosePurse(admin, p));
      && (step.Enrol? && step.purse == p ==> Apply(closed, step) == closed)
      && (step.RequestInvoice? && step.contribution < |db.contributions| && db.contributions[step.contribution].purse == p ==>
            forall r :: r in Apply(closed, step).invoices ==> r in closed.invoices)
  {
    ClosingOutcome(db, admin, p);
    var closed := Apply(db, ClosePurse(admin, p));
    hide Apply;
    if step.Enrol? {
      EnrolmentOutcome(closed, step.purse, step.now);
    }
    if step.RequestInvoice? {
      forall r | r !in closed.invoices
        ensures step.contribution < |db.contributions| && db.contributions[step.contribution].purse == p ==>
          r !in Apply(closed, step).invoices
      {
        InvoiceIssuedIff(closed, step, r);
      }
    }
  }

  // ----- payout requests -----

  /** A request is granted exactly when its amount is positive, it is for the
      admin's own group, payouts from held money are enabled and the group takes
      part in them, and the purse, or the group, can afford it. */
  lemma RequestGrantedIff(db: Db, admin: Admin, req: PayoutRequest, gate: Gate, scan: seq<nat>)
    ensures CreatePayout(db, admin, req, gate, scan).1.Ok? <==>
      && req.amount > 0 && req.group == admin.group && gate.custodianEnabled && !gate.directMode
      && (if req.purse.Some?
          then req.purse.value < |db.purses| && db.purses[req.purse.value].group == admin.group &&
            req.amount <= AvailableBalance(db, req.purse.value)
          else admin.group < db.groups && req.amount <= GroupBalance(db, admin.group))
  {
    hide AvailableBalance, GroupBalance, SweepAllocations;
  }

  /** The request names a purse of another group. */
  predicate ForeignPurse(db: Db, admin: Admin, req: PayoutRequest) {
    req.purse.Some? && req.purse.value < |db.purses| && db.purses[req.purse.value].group != admin.group
  }

  predicate MissingPurse(db: Db, req: PayoutRequest) {
    req.purse.Some? && req.purse.value >= |db.purses|
  }

  predicate Unaffordable(db: Db, admin: Admin, req: PayoutRequest) {
    req.amount > if req.purse.Some? then AvailableBalance(db, req.purse.value) else GroupBalance(db, admin.group)
  }

  /** Each refusal has its own condition; lack of money is the last of them. */
  lemma RequestRefusals(db: Db, admin: Admin, req: PayoutRequest, gate: Gate, scan: seq<nat>)
    requires req.amount > 0 && admin.group < db.groups
    ensures var r := CreatePayout(db, admin, req, gate, scan).1;
      var own := req.group == admin.group;
      var held := own && gate.custodianEnabled && !gate.directMode;
      var found := held && !MissingPurse(db, req) && !ForeignPurse(db, admin, req);
      && (r == Err(CustodianModeDisabled) <==> own && !gate.custodianEnabled)
      && (r == Err(DirectModeNoPayout) <==> own && gate.custodianEnabled && gate.directMode)
      && (r == Err(NotFound) <==> held && MissingPurse(db, req))
      && (r == Err(WrongGroup) <==> !own || (held && ForeignPurse(db, admin, req)))
      && (r == Err(InsufficientBalance) <==> found && Unaffordable(db, admin, req))
  {
    hide AvailableBalance, GroupBalance, SweepAllocations;
  }

  /** A granted request is stored as asked, and a refused one leaves no trace. */
  lemma RequestOutcome(db: Db, admin: Admin, req: PayoutRequest, gate: Gate, scan: seq<nat>)
    ensures var (db', r) := CreatePayout(db, admin, req, gate, scan);
      if r.Err? then db' == db
      else
        && r == Ok(|db.payouts|)
        && db'.payouts == db.payouts +
             [Payout(admin.group, req.purse, req.amount, Requested, admin.id, None, None, None, None)]
        && (req.purse.Some? ==> db'.allocations == db.allocations)
        && db' == db.(payouts := db'.payouts, allocations := db'.allocations)
  {
    hide AvailableBalance, GroupBalance, SweepAllocations;
  }

  // ----- deliveries -----

  /** A delivery is new exactly when no stored event has its id; then it is stored as
      received, and otherwise nothing changes. Either way the answer points to the
      event with that id. */
  lemma DeliveryOutcome(db: Db, id: string, payload: Payload)
    ensures var (db', (e, isNew)) := Webhooks.StoreEvent(db, id, payload);
      && (isNew <==> forall d :: 0 <= d < |db.webhookEvents| ==> db.webhookEvents[d].providerEventId != id)
      && e < |db'.webhookEvents| && db'.webhookEvents[e].providerEventId == id
      && (if isNew
          then e == |db.webhookEvents| &&
            db' == db.(webhookEvents := db.webhookEvents + [WebhookEvent(id, payload, false, None)])
          else db' == db)
  {
  }
}
