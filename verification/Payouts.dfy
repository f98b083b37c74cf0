/** Balances, payout requests, sweep allocations and the payout state machine. */
module Payouts {
  import opened Rows
  import opened Sums
  import opened Sweep

  /** A payout that still holds its money: not failed and not rejected. */
  predicate IsOutstanding(s: PayoutStatus) {
    s.Requested? || s.Approved? || s.Processing? || s.Completed?
  }

  // ----- the balance queries, each a sum over one table -----

  function PaidRows(cs: seq<Contribution>): (r: seq<Posting>)
    ensures |r| == |cs|
    ensures forall i :: 0 <= i < |cs| ==>
      r[i] == Posting(cs[i].purse, if cs[i].status.Paid? then cs[i].received else 0)
  {
    seq(|cs|, i requires 0 <= i < |cs| => Posting(cs[i].purse, if cs[i].status.Paid? then cs[i].received else 0))
  }

  /** Purse-scoped payouts that are outstanding, booked on their purse. */
  function DirectRows(ps: seq<Payout>): (r: seq<Posting>)
    ensures |r| == |ps|
    ensures forall k :: 0 <= k < |ps| ==> r[k] == DirectRow(ps[k])
  {
    seq(|ps|, k requires 0 <= k < |ps| => DirectRow(ps[k]))
  }

  function DirectRow(p: Payout): Posting {
    match p.purse
    case Some(purse) => Posting(purse, if IsOutstanding(p.status) then p.amount else 0)
    case None => Posting(0, 0)
  }

  /** Allocations of outstanding sweeps, booked on the purse they draw from. */
  function AllocationRows(allocs: seq<Allocation>, ps: seq<Payout>): (r: seq<Posting>)
    ensures |r| == |allocs|
    ensures forall a :: 0 <= a < |allocs| ==> r[a] == AllocationRow(allocs[a], ps)
  {
    seq(|allocs|, a requires 0 <= a < |allocs| => AllocationRow(allocs[a], ps))
  }

  function AllocationRow(a: Allocation, ps: seq<Payout>): Posting {
    Posting(a.purse, if a.payout < |ps| && IsOutstanding(ps[a.payout].status) then a.amount else 0)
  }

  /** All outstanding payouts, booked on their group. */
  function GroupRows(ps: seq<Payout>): (r: seq<Posting>)
    ensures |r| == |ps|
    ensures forall k :: 0 <= k < |ps| ==>
      r[k] == Posting(ps[k].group, if IsOutstanding(ps[k].status) then ps[k].amount else 0)
  {
    seq(|ps|, k requires 0 <= k < |ps| => Posting(ps[k].group, if IsOutstanding(ps[k].status) then ps[k].amount else 0))
  }

  function CollectedTotal(db: Db, purse: nat): Kobo {
    Total(PaidRows(db.contributions), purse)
  }

  function DirectTotal(db: Db, purse: nat): Kobo {
    Total(DirectRows(db.payouts), purse)
  }

  function AllocatedTotal(db: Db, purse: nat): Kobo {
    Total(AllocationRows(db.allocations, db.payouts), purse)
  }

  function AvailableBalance(db: Db, purse: nat): Kobo {
    CollectedTotal(db, purse) - DirectTotal(db, purse) - AllocatedTotal(db, purse)
  }

  /** Which purses belong to the group. */
  function Members(purses: seq<Purse>, group: nat): (m: seq<bool>)
    ensures |m| == |purses| && forall p :: 0 <= p < |purses| ==> m[p] == (purses[p].group == group)
  {
    seq(|purses|, p requires 0 <= p < |purses| => purses[p].group == group)
  }

  /** The group's balance, computed from contributions and payouts without
      looking at any purse balance or allocation. */
  function GroupBalance(db: Db, group: nat): Kobo {
    Sum(Masked(PaidRows(db.contributions), Members(db.purses, group))) - Total(GroupRows(db.payouts), group)
  }

  // ----- requesting a payout -----

  /** The purses of a group, each once, in whatever order the database scans them. */
  ghost predicate IsScan(db: Db, group: nat, scan: seq<nat>) {
    && (forall i :: 0 <= i < |scan| ==> scan[i] < |db.purses| && db.purses[scan[i]].group == group)
    && (forall i, j :: 0 <= i < j < |scan| ==> scan[i] != scan[j])
    && (forall p :: 0 <= p < |db.purses| && db.purses[p].group == group ==> p in scan)
  }

  /** Purses with money left, weighted by what they collected. */
  function EligibleOf(db: Db, scan: seq<nat>): seq<Eligible> {
    if scan == [] then []
    else
      var front, p := EligibleOf(db, scan[..|scan| - 1]), scan[|scan| - 1];
      if AvailableBalance(db, p) > 0 then front + [Eligible(p, CollectedTotal(db, p))] else front
  }

  /** One allocation per positive share. */
  function AllocationsOf(payout: nat, el: seq<Eligible>, shares: seq<int>): seq<Allocation>
    requires |el| == |shares|
  {
    if |el| == 0 then []
    else
      var n := |el| - 1;
      var front := AllocationsOf(payout, el[..n], shares[..n]);
      if shares[n] <= 0 then front else front + [Allocation(payout, el[n].purse, shares[n])]
  }

  function SweepAllocations(db: Db, payout: nat, amount: Kobo, scan: seq<nat>): seq<Allocation> {
    var el := EligibleOf(db, scan);
    if |el| == 0 || Weight(el) <= 0 then [] else AllocationsOf(payout, el, Shares(amount, el))
  }

  /** What a group admin asks for; no purse means the whole group. */
  datatype PayoutRequest = PayoutRequest(group: nat, purse: Option<nat>, amount: Kobo)

  /** The platform-wide switch and the group's own settlement mode. */
  datatype Gate = Gate(custodianEnabled: bool, directMode: bool)

  function CheckRequest(db: Db, admin: Admin, req: PayoutRequest, gate: Gate): Result<Kobo, AppError> {
    if req.amount <= 0 then Err(InvalidRequest)
    else if req.group != admin.group then Err(WrongGroup)
    else if !gate.custodianEnabled then Err(CustodianModeDisabled)
    else if gate.directMode then Err(DirectModeNoPayout)
    else match req.purse
      case Some(p) =>
        if p >= |db.purses| then Err(NotFound)
        else if db.purses[p].group != admin.group then Err(WrongGroup)
        else Ok(AvailableBalance(db, p))
      case None =>
        if admin.group >= db.groups then Err(NotFound) else Ok(GroupBalance(db, admin.group))
  }

  function NewPayout(admin: Admin, req: PayoutRequest): Payout {
    Payout(admin.group, req.purse, req.amount, Requested, admin.id, None, None, None, None)
  }

  function CreatePayout(db: Db, admin: Admin, req: PayoutRequest, gate: Gate, scan: seq<nat>)
    : (Db, Result<nat, AppError>)
  {
    match CheckRequest(db, admin, req, gate)
    case Err(e) => (db, Err(e))
    case Ok(available) =>
      if req.amount > available then (db, Err(InsufficientBalance))
      else
        var k := |db.payouts|;
        var stored := db.(payouts := db.payouts + [NewPayout(admin, req)]);
        if req.purse.Some? then (stored, Ok(k))
        else (stored.(allocations := db.allocations + SweepAllocations(stored, k, req.amount, scan)), Ok(k))
  }

  // ----- the payout state machine -----

  function PayoutAuditActorOf(actor: PayoutActorType): AuditActorType {
    match actor
    case GroupAdminActor => ByGroupAdmin
    case PlatformAdminActor => ByPlatformAdmin
    case TransferWebhook => ByWebhook
  }

  function Move(db: Db, k: nat, p: Payout, actor: PayoutActorType, actorId: Option<nat>): Db
    requires k < |db.payouts|
  {
    var from := db.payouts[k].status;
    db.(payouts := db.payouts[k := p],
        payoutEvents := db.payoutEvents + [PayoutEvent(k, from, p.status, actor, actorId)],
        audit := db.audit + [PayoutTransition(k, from, p.status, PayoutAuditActorOf(actor), actorId)])
  }

  /** The balance an approval is checked against, with the payout's own amount added back. */
  function AvailableExcludingSelf(db: Db, k: nat): Kobo
    requires k < |db.payouts|
  {
    var p := db.payouts[k];
    p.amount + if p.purse.Some? then AvailableBalance(db, p.purse.value) else GroupBalance(db, p.group)
  }

  function Approve(db: Db, k: nat, userId: nat): (Db, Result<(), AppError>) {
    if k >= |db.payouts| then (db, Err(NotFound))
    else
      var p := db.payouts[k];
      if !p.status.Requested? then (db, Err(PayoutNotRequestable))
      else if p.amount > AvailableExcludingSelf(db, k) then (db, Err(InsufficientBalance))
      else (Move(db, k, p.(status := Approved, approvedBy := Some(userId)), PlatformAdminActor, Some(userId)), Ok(()))
  }

  function Reject(db: Db, k: nat, userId: nat, reason: string): (Db, Result<(), AppError>) {
    if k >= |db.payouts| then (db, Err(NotFound))
    else
      var p := db.payouts[k];
      if !p.status.Requested? then (db, Err(PayoutNotRequestable))
      else
        (Move(db, k, p.(status := Rejected, rejectionReason := Some(reason)), PlatformAdminActor, Some(userId)), Ok(()))
  }

  /** The three background steps do nothing unless the payout is where they expect it. */
  function MarkTransferInitiated(db: Db, k: nat, ref: Ref): (Db, bool) {
    if k >= |db.payouts| || !db.payouts[k].status.Approved? then (db, false)
    else (Move(db, k, db.payouts[k].(status := Processing, transferRef := Some(ref)), PlatformAdminActor, None), true)
  }

  function MarkTransferInitiationFailed(db: Db, k: nat, reason: string): (Db, bool) {
    if k >= |db.payouts| || !db.payouts[k].status.Approved? then (db, false)
    else (Move(db, k, db.payouts[k].(status := Failed, failureReason := Some(reason)), PlatformAdminActor, None), true)
  }

  function ApplyTransferConfirmation(db: Db, k: nat, success: bool, reason: Option<string>): (Db, bool)
    requires k < |db.payouts|
  {
    var p := db.payouts[k];
    if !p.status.Processing? then (db, false)
    else if success then (Move(db, k, p.(status := Completed), TransferWebhook, None), true)
    else (Move(db, k, p.(status := Failed, failureReason := reason), TransferWebhook, None), true)
  }
}
