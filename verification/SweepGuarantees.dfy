/** What a group-wide sweep does to the balances of its purses. */
module SweepGuarantees {
  import opened Rows
  import opened Sums
  import opened Sweep
  import opened ContributionLaws
  import opened Payouts
  import opened PayoutLaws
  import opened Platform
  import FixedPrecision

  // ----- exactness where sweeps are requested -----

  /** In every reachable state an accepted sweep is attributed completely: the
      allocator's early return is not taken, and the rows it writes are positive,
      stay inside the group, and total exactly the sweep. */
  lemma AcceptedSweepIsCovered(db: Db, admin: Admin, req: PayoutRequest, gate: Gate, scan: seq<nat>)
    requires Reachable(db) && IsScan(db, admin.group, scan)
    requires req.purse.None? && CreatePayout(db, admin, req, gate, scan).1.Ok?
    ensures EligibleOf(db, scan) != [] && Weight(EligibleOf(db, scan)) > 0
    ensures var db' := CreatePayout(db, admin, req, gate, scan).0;
      var rows := db'.allocations[|db.allocations|..];
      && rows != []
      && CoversSweep(rows, db.purses, admin.group, |db.payouts|, req.amount)
  {
    hide Reachable, ContributionsOk, PayoutsOk, EventsUnique;
    ReachableInv(db);
    SweepSees(db, admin, req, scan);
    SweepCovers(db, admin.group, scan, |db.payouts|, req.amount);
    var db' := CreatePayout(db, admin, req, gate, scan).0;
    var el := EligibleOf(db, scan);
    var rows := AllocationsOf(|db.payouts|, el, Shares(req.amount, el));
    assert db'.allocations[|db.allocations|..] == rows;
    NoRowsCoverNothing(|db.payouts|);
  }

  lemma NoRowsCoverNothing(k: nat)
    ensures Total(ByPayout([]), k) == 0
  {
  }

  // ----- what each purse pays -----

  /** Rows booked on the purse they draw on. */
  function ByPurse(allocs: seq<Allocation>): (r: seq<Posting>)
    ensures |r| == |allocs|
    ensures forall a :: 0 <= a < |allocs| ==> r[a] == Posting(allocs[a].purse, allocs[a].amount)
  {
    seq(|allocs|, a requires 0 <= a < |allocs| => Posting(allocs[a].purse, allocs[a].amount))
  }

  function ShareRows(el: seq<Eligible>, shares: seq<int>): (r: seq<Posting>)
    requires |el| == |shares|
    ensures |r| == |el| && forall x :: 0 <= x < |el| ==> r[x] == Posting(el[x].purse, shares[x])
  {
    seq(|el|, x requires 0 <= x < |el| => Posting(el[x].purse, shares[x]))
  }

  lemma {:induction false} RowsChargeShares(k: nat, el: seq<Eligible>, shares: seq<int>, p: nat)
    requires |el| == |shares| && forall x :: 0 <= x < |el| ==> shares[x] >= 0
    ensures Total(ByPurse(AllocationsOf(k, el, shares)), p) == Total(ShareRows(el, shares), p)
  {
    var rows := AllocationsOf(k, el, shares);
    if |el| == 0 {
      assert ByPurse(rows) == ShareRows(el, shares);
    } else {
      var n := |el| - 1;
      var front := AllocationsOf(k, el[..n], shares[..n]);
      RowsChargeShares(k, el[..n], shares[..n], p);
      assert ShareRows(el, shares) == ShareRows(el[..n], shares[..n]) + [Posting(el[n].purse, shares[n])];
      TotalPush(ShareRows(el[..n], shares[..n]), Posting(el[n].purse, shares[n]), p);
      if shares[n] > 0 {
        assert ByPurse(rows) == ByPurse(front) + [Posting(el[n].purse, shares[n])];
        TotalPush(ByPurse(front), Posting(el[n].purse, shares[n]), p);
      } else {
        assert rows == front;
      }
    }
  }

  /** What a sweep charges a purse. */
  function Charge(db: Db, scan: seq<nat>, amount: Kobo, p: nat): int
    requires EligibleOf(db, scan) != [] && Weight(EligibleOf(db, scan)) > 0
  {
    var el := EligibleOf(db, scan);
    Total(ShareRows(el, Shares(amount, el)), p)
  }

  /** An eligible purse is charged its share, and any other purse nothing. */
  lemma ChargeIsShare(db: Db, scan: seq<nat>, amount: Kobo, p: nat)
    requires EligibleOf(db, scan) != [] && Weight(EligibleOf(db, scan)) > 0
    requires DistinctPurses(EligibleOf(db, scan))
    ensures var el := EligibleOf(db, scan);
      && (!Lists(el, p) ==> Charge(db, scan, amount, p) == 0)
      && forall x :: 0 <= x < |el| && el[x].purse == p ==> Charge(db, scan, amount, p) == Shares(amount, el)[x]
  {
    var el := EligibleOf(db, scan);
    var rows := ShareRows(el, Shares(amount, el));
    if !Lists(el, p) {
      SumZero(Column(rows, p));
    }
    forall x | 0 <= x < |el| && el[x].purse == p ensures Total(rows, p) == Shares(amount, el)[x] {
      TotalOfDistinct(rows, x);
    }
  }

  lemma AllocationRowsPush(db: Db, admin: Admin, req: PayoutRequest, rows: seq<Allocation>, p: nat)
    requires PayoutsOk(db)
    requires forall a :: 0 <= a < |rows| ==> rows[a].payout == |db.payouts|
    ensures Total(AllocationRows(db.allocations + rows, db.payouts + [NewPayout(admin, req)]), p) ==
      AllocatedTotal(db, p) + Total(ByPurse(rows), p)
  {
    var ps' := db.payouts + [NewPayout(admin, req)];
    var all := AllocationRows(db.allocations + rows, ps');
    forall a | 0 <= a < |db.allocations| ensures all[a] == AllocationRow(db.allocations[a], db.payouts) {
      assert AllocationKnown(db.allocations[a], db.payouts, db.purses);
    }
    assert Column(all, p) == Column(AllocationRows(db.allocations, db.payouts), p) + Column(ByPurse(rows), p);
    SumConcat(Column(AllocationRows(db.allocations, db.payouts), p), Column(ByPurse(rows), p));
  }

  /** Storing a sweep with its rows takes from a purse what the rows book on it. */
  lemma StoredSweepEffect(db: Db, admin: Admin, req: PayoutRequest, rows: seq<Allocation>, p: nat)
    requires PayoutsOk(db) && req.purse.None?
    requires forall a :: 0 <= a < |rows| ==> rows[a].payout == |db.payouts|
    ensures var db' := db.(payouts := db.payouts + [NewPayout(admin, req)], allocations := db.allocations + rows);
      AvailableBalance(db', p) == AvailableBalance(db, p) - Total(ByPurse(rows), p)
  {
    AllocationRowsPush(db, admin, req, rows, p);
    assert DirectRows(db.payouts + [NewPayout(admin, req)]) == DirectRows(db.payouts) + [Posting(0, 0)];
    TotalPush(DirectRows(db.payouts), Posting(0, 0), p);
  }

  /** The rows an accepted sweep stores. */
  lemma AcceptedSweepStores(db: Db, admin: Admin, req: PayoutRequest, gate: Gate, scan: seq<nat>)
    requires ContributionsOk(db) && PayoutsOk(db) && IsScan(db, admin.group, scan)
    requires req.purse.None? && CreatePayout(db, admin, req, gate, scan).1.Ok?
    ensures Sweepable(req.amount, EligibleOf(db, scan)) && req.amount <= GroupBalance(db, admin.group)
    ensures var el := EligibleOf(db, scan);
      var rows := AllocationsOf(|db.payouts|, el, Shares(req.amount, el));
      CreatePayout(db, admin, req, gate, scan).0 ==
        db.(payouts := db.payouts + [NewPayout(admin, req)], allocations := db.allocations + rows)
  {
    SweepSees(db, admin, req, scan);
    SweepHasPayers(db, admin.group, scan, req.amount);
  }

  /** An accepted sweep takes from every purse exactly what it charges it. */
  lemma SweepEffect(db: Db, admin: Admin, req: PayoutRequest, gate: Gate, scan: seq<nat>, p: nat)
    requires ContributionsOk(db) && PayoutsOk(db) && IsScan(db, admin.group, scan)
    requires req.purse.None? && CreatePayout(db, admin, req, gate, scan).1.Ok?
    ensures Sweepable(req.amount, EligibleOf(db, scan))
    ensures AvailableBalance(CreatePayout(db, admin, req, gate, scan).0, p) ==
      AvailableBalance(db, p) - Charge(db, scan, req.amount, p)
  {
    var el := EligibleOf(db, scan);
    AcceptedSweepStores(db, admin, req, gate, scan);
    SharesExact(req.amount, el);
    var rows := AllocationsOf(|db.payouts|, el, Shares(req.amount, el));
    AllocationsOfListed(|db.payouts|, el, Shares(req.amount, el));
    StoredSweepEffect(db, admin, req, rows, p);
    RowsChargeShares(|db.payouts|, el, Shares(req.amount, el), p);
  }

  // ----- from a group that owes nothing -----

  /** No payout of the group is outstanding. */
  ghost predicate OwesNothing(db: Db, group: nat) {
    forall k :: 0 <= k < |db.payouts| && db.payouts[k].group == group ==> !IsOutstanding(db.payouts[k].status)
  }

  lemma OwesNothingMeansCollected(db: Db, group: nat, p: nat)
    requires PayoutsOk(db) && OwesNothing(db, group)
    requires p < |db.purses| && db.purses[p].group == group
    ensures AvailableBalance(db, p) == CollectedTotal(db, p)
  {
    forall k | 0 <= k < |db.payouts| ensures Column(DirectRows(db.payouts), p)[k] == 0 {
      assert PayoutKnown(db.payouts[k], db.purses);
    }
    SumZero(Column(DirectRows(db.payouts), p));
    forall a | 0 <= a < |db.allocations| ensures Column(AllocationRows(db.allocations, db.payouts), p)[a] == 0 {
      assert AllocationKnown(db.allocations[a], db.payouts, db.purses);
    }
    SumZero(Column(AllocationRows(db.allocations, db.payouts), p));
  }

  /** Values listed per entry add up to the same values kept per purse. */
  lemma ListedSum(el: seq<Eligible>, values: seq<int>, table: seq<int>)
    requires DistinctPurses(el) && |values| == |el|
    requires forall x :: 0 <= x < |el| ==> el[x].purse < |table| && table[el[x].purse] == values[x]
    requires forall p :: 0 <= p < |table| && !Lists(el, p) ==> table[p] == 0
    ensures Sum(values) == Sum(table)
  {
    var rows, all := ShareRows(el, values), seq(|table|, p => true);
    Exchange(rows, all);
    assert Masked(rows, all) == values;
    forall p | 0 <= p < |table| ensures KeyTotals(rows, all)[p] == table[p] {
      ListedTotal(el, values, p, table[p]);
    }
    assert KeyTotals(rows, all) == table;
  }

  lemma ListedTotal(el: seq<Eligible>, values: seq<int>, p: nat, value: int)
    requires DistinctPurses(el) && |values| == |el|
    requires forall x :: 0 <= x < |el| && el[x].purse == p ==> values[x] == value
    requires !Lists(el, p) ==> value == 0
    ensures Total(ShareRows(el, values), p) == value
  {
    var rows := ShareRows(el, values);
    if Lists(el, p) {
      var x :| 0 <= x < |el| && el[x].purse == p;
      TotalOfDistinct(rows, x);
    } else {
      SumZero(Column(rows, p));
    }
  }

  /** The weights of the eligible purses then add up to the group's balance. */
  lemma FreshWeight(db: Db, group: nat, scan: seq<nat>)
    requires ContributionsOk(db) && PayoutsOk(db) && OwesNothing(db, group) && IsScan(db, group, scan)
    ensures Weight(EligibleOf(db, scan)) == GroupBalance(db, group)
  {
    hide ContributionsOk, PayoutsOk, OwesNothing;
    var el, balances := EligibleOf(db, scan), PurseBalances(db, group);
    CollectedCoversHolds(db);
    EligibleEntitled(db, scan);
    EligibleDistinct(db, scan);
    forall x | 0 <= x < |el| ensures el[x].purse < |balances| && balances[el[x].purse] == Weights(el)[x] {
      assert Entitled(db, el[x]) && el[x].purse in scan;
      FreshListed(db, group, scan, el[x].purse);
    }
    forall p | 0 <= p < |balances| && !Lists(el, p) ensures balances[p] == 0 {
      if db.purses[p].group == group {
        FreshListed(db, group, scan, p);
      }
    }
    ListedSum(el, Weights(el), balances);
    BalancesAgree(db, group);
  }

  /** How far below zero a sweep of n eligible purses may take the last of them. */
  function Slack(n: nat): int {
    if n >= 2 then n - 2 else 0
  }

  lemma FreshShareAt(amount: int, el: seq<Eligible>, x: nat)
    requires Sweepable(amount, el) && amount <= Weight(el) && x < |el|
    ensures Shares(amount, el)[x] <= el[x].collected + Slack(|el|)
    ensures amount == Weight(el) ==> Shares(amount, el)[x] == el[x].collected
  {
    FreshSweepBound(amount, el);
  }

  /** A purse of a group that owes nothing has money exactly when it is eligible. */
  lemma FreshListed(db: Db, group: nat, scan: seq<nat>, p: nat)
    requires ContributionsOk(db) && PayoutsOk(db) && OwesNothing(db, group) && IsScan(db, group, scan)
    requires p < |db.purses| && db.purses[p].group == group
    ensures AvailableBalance(db, p) >= 0
    ensures WeighsAs(EligibleOf(db, scan), p, AvailableBalance(db, p))
  {
    OwesNothingMeansCollected(db, group, p);
    PartsNonNegative(db, p);
    CollectedCoversHolds(db);
    EligibleEntitled(db, scan);
    EligibleComplete(db, scan);
    assert p in scan;
    var el := EligibleOf(db, scan);
    forall x | 0 <= x < |el| && el[x].purse == p ensures el[x].collected == AvailableBalance(db, p) {
      assert Entitled(db, el[x]);
    }
  }

  /** `available` is the weight of p in the list, or 0 when it is not listed. */
  ghost predicate WeighsAs(el: seq<Eligible>, p: nat, available: int) {
    && (!Lists(el, p) ==> available == 0)
    && forall x :: 0 <= x < |el| && el[x].purse == p ==> el[x].collected == available
  }

  lemma ChargeWithin(el: seq<Eligible>, amount: Kobo, p: nat, available: int)
    requires Sweepable(amount, el) && amount <= Weight(el) && DistinctPurses(el) && WeighsAs(el, p, available)
    ensures Total(ShareRows(el, Shares(amount, el)), p) <= available + Slack(|el|)
    ensures amount == Weight(el) ==> Total(ShareRows(el, Shares(amount, el)), p) == available
  {
    var rows := ShareRows(el, Shares(amount, el));
    if Lists(el, p) {
      var x :| 0 <= x < |el| && el[x].purse == p;
      TotalOfDistinct(rows, x);
      FreshShareAt(amount, el, x);
    } else {
      SumZero(Column(rows, p));
    }
  }

  lemma FreshCharge(db: Db, group: nat, scan: seq<nat>, amount: Kobo, p: nat)
    requires ContributionsOk(db) && PayoutsOk(db) && OwesNothing(db, group) && IsScan(db, group, scan)
    requires p < |db.purses| && db.purses[p].group == group
    requires Sweepable(amount, EligibleOf(db, scan)) && amount <= GroupBalance(db, group)
    ensures Charge(db, scan, amount, p) <= AvailableBalance(db, p) + Slack(|EligibleOf(db, scan)|)
    ensures amount == GroupBalance(db, group) ==> Charge(db, scan, amount, p) == AvailableBalance(db, p)
  {
    FreshWeight(db, group, scan);
    FreshListed(db, group, scan, p);
    CollectedCoversHolds(db);
    EligibleDistinct(db, scan);
    ChargeWithin(EligibleOf(db, scan), amount, p, AvailableBalance(db, p));
  }

  /** From a reachable state in which a group owes nothing, a sweep of n eligible
      purses takes no purse of the group further below zero than max(0, n - 2)
      kobo, and a sweep of the whole balance leaves every purse at exactly 0. */
  lemma FreshSweepIsNearlySafe(db: Db, admin: Admin, req: PayoutRequest, gate: Gate, scan: seq<nat>, p: nat)
    requires Reachable(db) && OwesNothing(db, admin.group) && IsScan(db, admin.group, scan)
    requires req.purse.None? && CreatePayout(db, admin, req, gate, scan).1.Ok?
    requires p < |db.purses| && db.purses[p].group == admin.group
    ensures AvailableBalance(CreatePayout(db, admin, req, gate, scan).0, p) >= -Slack(|EligibleOf(db, scan)|)
    ensures req.amount == GroupBalance(db, admin.group) ==>
      AvailableBalance(CreatePayout(db, admin, req, gate, scan).0, p) == 0
  {
    ReachableInv(db);
    AcceptedSweepStores(db, admin, req, gate, scan);
    SweepEffect(db, admin, req, gate, scan, p);
    FreshCharge(db, admin.group, scan, req.amount, p);
  }

  // ----- the decimal code computes these shares -----

  /** For sweeps below 10^12 kobo over collected totals below 10^14 kobo, every
      share that the 28-digit decimal code computes before folding is the model's. */
  lemma DecimalSharesAreFloors(sweep: FixedPrecision.Dec, el: seq<Eligible>, x: nat)
    requires sweep.exp >= -2 && FixedPrecision.Kobo(sweep) < 1_000_000_000_000
    requires x < |el| && 0 < Weight(el) < 100_000_000_000_000
    requires forall y :: 0 <= y < |el| ==> el[y].collected > 0
    ensures var digits := FixedPrecision.PRECISION;
      var product := FixedPrecision.Multiply(sweep, FixedPrecision.Dec(el[x].collected, -2), digits);
      && product.coef <= FixedPrecision.Pow10(digits)
      && FixedPrecision.QuantizeDownKobo(
           FixedPrecision.Divide(product, FixedPrecision.Dec(Weight(el), -2), digits)) ==
         FloorShares(FixedPrecision.Kobo(sweep), el, Weight(el))[x]
  {
    SumUpdate(Weights(el), x, 0);
    SumExtends([], Weights(el)[x := 0]);
    FixedPrecision.ShareIsExactFloor(sweep, el[x].collected, Weight(el), FixedPrecision.PRECISION);
  }
}
