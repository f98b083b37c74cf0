/** The payout service, with the loop that attributes a sweep to purses. */
module PayoutServices {
  import opened Rows
  import opened Tables
  import opened Sums
  import opened Sweep
  import P = Payouts

  class PayoutService {
    const db: Database

    constructor (db: Database)
      ensures this.db == db
    {
      this.db := db;
    }

    method WriteEvent(k: nat, from: PayoutStatus, to: PayoutStatus, actor: PayoutActorType, actorId: Option<nat>)
      modifies db
      ensures db.State() == old(db.State()).(
        payoutEvents := old(db.payoutEvents) + [PayoutEvent(k, from, to, actor, actorId)],
        audit := old(db.audit) + [PayoutTransition(k, from, to, P.PayoutAuditActorOf(actor), actorId)])
    {
      db.payoutEvents := db.payoutEvents + [PayoutEvent(k, from, to, actor, actorId)];
      db.audit := db.audit + [PayoutTransition(k, from, to, P.PayoutAuditActorOf(actor), actorId)];
    }

    /** The purses of a group, in some order. */
    method PursesOf(group: nat) returns (scan: seq<nat>)
      ensures P.IsScan(db.State(), group, scan)
    {
      scan := [];
      for p := 0 to |db.purses|
        invariant forall x :: 0 <= x < |scan| ==> scan[x] < p && db.purses[scan[x]].group == group
        invariant forall x, y :: 0 <= x < y < |scan| ==> scan[x] != scan[y]
        invariant forall q :: 0 <= q < p && db.purses[q].group == group ==> q in scan
      {
        if db.purses[p].group == group {
          scan := scan + [p];
        }
      }
    }

    /** The floor of each proportional share, with the shortfall folded into the
        last one: no other purse's share is touched, and no kobo is lost. */
    method SplitSweep(amount: Kobo, eligible: seq<Eligible>, total: Kobo) returns (shares: seq<int>)
      requires |eligible| > 0 && total == Weight(eligible) && total > 0
      ensures shares == Shares(amount, eligible)
    {
      hide FloorShare, Sum, Weight;
      shares := [];
      var running := 0;
      SumZero(shares);
      for x := 0 to |eligible|
        invariant shares == FloorShares(amount, eligible, total)[..x]
        invariant running == Sum(shares)
      {
        var share := FloorShare(amount, eligible[x].collected, total);
        SumPush(shares, share);
        shares := shares + [share];
        running := running + share;
      }
      assert shares == FloorShares(amount, eligible, total);
      var remainder := amount - running;
      if remainder != 0 {
        var last := |shares| - 1;
        shares := shares[last := shares[last] + remainder];
      }
    }

    /** The eligible purses of a scan, with the money each collected, and their total. */
    method EligiblePurses(purses: seq<nat>) returns (eligible: seq<Eligible>, total: Kobo)
      ensures eligible == P.EligibleOf(db.State(), purses)
      ensures total == Weight(eligible)
    {
      eligible, total := [], 0;
      for x := 0 to |purses|
        invariant eligible == P.EligibleOf(db.State(), purses[..x])
        invariant total == Weight(eligible)
      {
        var purse := purses[x];
        var collected := P.CollectedTotal(db.State(), purse);
        var outstanding := P.DirectTotal(db.State(), purse);
        var swept := P.AllocatedTotal(db.State(), purse);
        var available := collected - outstanding - swept;
        assert purses[..x + 1][..x] == purses[..x];
        if available > 0 {
          WeightPush(eligible, Eligible(purse, collected));
          eligible := eligible + [Eligible(purse, collected)];
          total := total + collected;
        }
      }
      assert purses[..|purses|] == purses;
    }

    /** One allocation for each positive share. */
    method StoreShares(k: nat, eligible: seq<Eligible>, shares: seq<int>)
      requires |eligible| == |shares|
      modifies db
      ensures db.State() == old(db.State()).(
        allocations := old(db.allocations) + P.AllocationsOf(k, eligible, shares))
    {
      for x := 0 to |eligible|
        invariant db.State() == old(db.State()).(allocations := db.allocations)
        invariant db.allocations == old(db.allocations) + P.AllocationsOf(k, eligible[..x], shares[..x])
      {
        assert eligible[..x + 1][..x] == eligible[..x] && shares[..x + 1][..x] == shares[..x];
        if shares[x] <= 0 { continue; }
        db.allocations := db.allocations + [Allocation(k, eligible[x].purse, shares[x])];
      }
      assert eligible[..|eligible|] == eligible && shares[..|shares|] == shares;
    }

    method CreateSweepAllocations(k: nat, group: nat, amount: Kobo) returns (ghost scan: seq<nat>)
      modifies db
      ensures P.IsScan(old(db.State()), group, scan)
      ensures db.State() == old(db.State()).(
        allocations := old(db.allocations) + P.SweepAllocations(old(db.State()), k, amount, scan))
    {
      var purses := PursesOf(group);
      scan := purses;
      var eligible, total := EligiblePurses(purses);
      if |eligible| == 0 || total <= 0 { return; }
      var shares := SplitSweep(amount, eligible, total);
      StoreShares(k, eligible, shares);
    }

    method Create(admin: Admin, req: P.PayoutRequest, gate: P.Gate)
      returns (r: Result<nat, AppError>, ghost scan: seq<nat>)
      modifies db
      ensures P.IsScan(old(db.State()), admin.group, scan)
      ensures (db.State(), r) == P.CreatePayout(old(db.State()), admin, req, gate, scan)
    {
      scan := PursesOf(admin.group);
      if req.amount <= 0 { r := Err(InvalidRequest); return; }
      if req.group != admin.group { r := Err(WrongGroup); return; }
      if !gate.custodianEnabled { r := Err(CustodianModeDisabled); return; }
      if gate.directMode { r := Err(DirectModeNoPayout); return; }
      var available;
      if req.purse != None {
        var p := req.purse.value;
        if p >= |db.purses| { r := Err(NotFound); return; }
        if db.purses[p].group != admin.group { r := Err(WrongGroup); return; }
        available := P.AvailableBalance(db.State(), p);
      } else {
        if admin.group >= db.groups { r := Err(NotFound); return; }
        available := P.GroupBalance(db.State(), admin.group);
      }
      if req.amount > available { r := Err(InsufficientBalance); return; }
      var k := |db.payouts|;
      db.payouts := db.payouts + [Payout(admin.group, req.purse, req.amount, Requested, admin.id, None, None, None, None)];
      if req.purse == None {
        scan := CreateSweepAllocations(k, admin.group, req.amount);
      }
      r := Ok(k);
    }

    method ApproveOnly(k: nat, userId: nat) returns (r: Result<(), AppError>)
      modifies db
      ensures (db.State(), r) == P.Approve(old(db.State()), k, userId)
    {
      if k >= |db.payouts| { return Err(NotFound); }
      var payout := db.payouts[k];
      if payout.status != Requested { return Err(PayoutNotRequestable); }
      var available;
      if payout.purse != None {
        available := P.AvailableBalance(db.State(), payout.purse.value);
      } else {
        available := P.GroupBalance(db.State(), payout.group);
      }
      if payout.amount > available + payout.amount { return Err(InsufficientBalance); }
      var from := payout.status;
      db.payouts := db.payouts[k := payout.(status := Approved, approvedBy := Some(userId))];
      WriteEvent(k, from, Approved, PlatformAdminActor, Some(userId));
      return Ok(());
    }

    method Reject(k: nat, userId: nat, reason: string) returns (r: Result<(), AppError>)
      modifies db
      ensures (db.State(), r) == P.Reject(old(db.State()), k, userId, reason)
    {
      if k >= |db.payouts| { return Err(NotFound); }
      var payout := db.payouts[k];
      if payout.status != Requested { return Err(PayoutNotRequestable); }
      var from := payout.status;
      db.payouts := db.payouts[k := payout.(status := Rejected, rejectionReason := Some(reason))];
      WriteEvent(k, from, Rejected, PlatformAdminActor, Some(userId));
      return Ok(());
    }

    method MarkTransferInitiated(k: nat, ref: Ref) returns (moved: bool)
      modifies db
      ensures (db.State(), moved) == P.MarkTransferInitiated(old(db.State()), k, ref)
    {
      if k >= |db.payouts| || db.payouts[k].status != Approved { return false; }
      var from := db.payouts[k].status;
      db.payouts := db.payouts[k := db.payouts[k].(status := Processing, transferRef := Some(ref))];
      WriteEvent(k, from, Processing, PlatformAdminActor, None);
      return true;
    }

    method MarkTransferInitiationFailed(k: nat, reason: string) returns (moved: bool)
      modifies db
      ensures (db.State(), moved) == P.MarkTransferInitiationFailed(old(db.State()), k, reason)
    {
      if k >= |db.payouts| || db.payouts[k].status != Approved { return false; }
      var from := db.payouts[k].status;
      db.payouts := db.payouts[k := db.payouts[k].(status := Failed, failureReason := Some(reason))];
      WriteEvent(k, from, Failed, PlatformAdminActor, None);
      return true;
    }

    method ApplyTransferConfirmation(k: nat, success: bool, reason: Option<string>) returns (moved: bool)
      requires k < |db.payouts|
      modifies db
      ensures (db.State(), moved) == P.ApplyTransferConfirmation(old(db.State()), k, success, reason)
    {
      var payout := db.payouts[k];
      if payout.status != Processing { return false; }
      var from := payout.status;
      if success {
        payout := payout.(status := Completed);
      } else {
        payout := payout.(status := Failed, failureReason := reason);
      }
      db.payouts := db.payouts[k := payout];
      WriteEvent(k, from, payout.status, TransferWebhook, None);
      return true;
    }
  }

  lemma WeightPush(el: seq<Eligible>, e: Eligible)
    ensures Weight(el + [e]) == Weight(el) + e.collected
  {
    assert Weights(el + [e]) == Weights(el) + [e.collected];
    SumPush(Weights(el), e.collected);
  }
}
