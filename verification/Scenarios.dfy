/** Concrete runs of the ledger: what the code does not keep, and bounds that are
    attained. Each lemma returns a state that the run really reaches. */
module Scenarios {
  import opened Rows
  import opened Sums
  import opened Sweep
  import opened Contributions
  import opened Payouts
  import opened PayoutLaws
  import opened Platform
  import opened RunGuarantees
  import opened SweepGuarantees
  import opened MixedRuns
  import Jobs

  // ----- building runs -----

  /** Reached by a run that asks for no payouts but sweeps. */
  ghost predicate SweepReachable(db: Db) {
    exists groups: nat, steps: seq<Step> ::
      ValidRun(EmptyDb(groups), steps) && OnlySweeps(steps) && db == Run(EmptyDb(groups), steps)
  }

  lemma ThenStep(db: Db, step: Step) returns (db': Db)
    requires Reachable(db) && Admissible(db, step)
    ensures db' == Apply(db, step) && Reachable(db')
  {
    db' := Apply(db, step);
    var groups: nat, steps: seq<Step> :| ValidRun(EmptyDb(groups), steps) && db == Run(EmptyDb(groups), steps);
    var longer := steps + [step];
    assert longer[..|steps|] == steps;
    assert ValidRun(EmptyDb(groups), longer) && db' == Run(EmptyDb(groups), longer);
  }

  lemma ThenSweepStep(db: Db, step: Step) returns (db': Db)
    requires SweepReachable(db) && Admissible(db, step) && (step.RequestPayout? ==> step.req.purse.None?)
    ensures db' == Apply(db, step) && SweepReachable(db')
  {
    db' := Apply(db, step);
    var groups: nat, steps: seq<Step> :|
      ValidRun(EmptyDb(groups), steps) && OnlySweeps(steps) && db == Run(EmptyDb(groups), steps);
    var longer := steps + [step];
    assert longer[..|steps|] == steps;
    assert OnlySweeps(longer);
    assert ValidRun(EmptyDb(groups), longer) && db' == Run(EmptyDb(groups), longer);
  }

  lemma SweepReachableIsReachable(db: Db)
    requires SweepReachable(db)
    ensures Reachable(db) && Inv(db)
  {
    var groups: nat, steps: seq<Step> :|
      ValidRun(EmptyDb(groups), steps) && OnlySweeps(steps) && db == Run(EmptyDb(groups), steps);
    ReachableInv(db);
  }

  const ADMIN := Admin(1, 0)
  const GATE := Gate(true, false)
  const PRICE: Kobo := 20_000
  const PURSE := Purse(0, PRICE, 100, Open)

  lemma NoPurses() returns (db: Db)
    ensures SweepReachable(db) && db == EmptyDb(1)
  {
    db := EmptyDb(1);
    assert ValidRun(db, []) && OnlySweeps([]) && db == Run(db, []);
  }

  lemma OnePurseMore(db: Db) returns (db': Db)
    requires SweepReachable(db) && db.groups == 1
    ensures SweepReachable(db') && db' == db.(purses := db.purses + [PURSE])
  {
    db' := ThenSweepStep(db, OpenPurse(ADMIN, PRICE, 100, 0));
  }

  // ----- payments -----

  /** A contribution to purse p with an invoice for the whole price. */
  function Invoiced(p: nat, ref: Ref): Contribution {
    InvoicedRow(NewContribution(p, PRICE, 0), ProviderInvoice(ref, Some("0"), 50), None, 0)
  }

  /** The same, after a payment of this amount. */
  function After(p: nat, ref: Ref, amount: nat): Contribution {
    ConfirmRow(Invoiced(p, ref), amount, None, 1)
  }

  ghost predicate AllResolved(cs: seq<Contribution>) {
    forall i :: 0 <= i < |cs| ==> !Unresolved(cs[i])
  }

  /** Nothing but contributions and invoices, and the logs, differs. */
  predicate SameLedger(db: Db, db': Db) {
    db'.groups == db.groups && db'.purses == db.purses && db'.payouts == db.payouts && db'.allocations == db.allocations
  }

  lemma InvoiceLast(db: Db, p: nat, ref: Ref)
    requires |db.contributions| > 0 && db.contributions[|db.contributions| - 1] == NewContribution(p, PRICE, 0)
    requires p < |db.purses| && db.purses[p] == PURSE
    ensures var i := |db.contributions| - 1;
      Apply(db, RequestInvoice(i, Some(ProviderInvoice(ref, Some("0"), 50)), None, 0)) ==
        db.(contributions := db.contributions[i := Invoiced(p, ref)],
            invoices := db.invoices[ref := IssuedInvoice(i, PRICE)])
  {
  }

  lemma OnlyLastSelected(cs: seq<Contribution>)
    requires |cs| > 0 && AllResolved(cs[..|cs| - 1]) && Unresolved(cs[|cs| - 1]) && cs[|cs| - 1].invoice.Some?
    ensures Jobs.IsSelection(cs, Jobs.Everything, 1, [|cs| - 1])
  {
    var i := |cs| - 1;
    var rows: seq<nat> := [i];
    assert rows[0] == i;
    assert forall j :: 0 <= j < i ==> cs[..i][j] == cs[j];
  }

  lemma ReconcileSingle(db: Db, i: nat, answers: Jobs.Answers, now: Time)
    requires i < |db.contributions|
    ensures Jobs.Reconcile(db, [i], answers, now).0 == Jobs.ReconcileOne(db, i, answers, now).0
  {
    var rows: seq<nat> := [i];
    assert rows[0] == i && rows[..0] == [];
    assert Jobs.Reconcile(db, rows[..0], answers, now) == (db, 0);
  }

  lemma PayLast(db: Db, p: nat, ref: Ref, amount: nat)
    requires |db.contributions| > 0 && db.contributions[|db.contributions| - 1] == Invoiced(p, ref)
    requires AllResolved(db.contributions[..|db.contributions| - 1])
    ensures var i := |db.contributions| - 1;
      var answers := map[ref := Jobs.PaidStatus(amount, None)];
      var db' := Apply(db, RunReconciliation(Jobs.Everything, [i], answers, 1));
      && Jobs.IsSelection(db.contributions, Jobs.Everything, 1, [i])
      && db'.contributions == db.contributions[i := After(p, ref, amount)]
      && db'.invoices == db.invoices && SameLedger(db, db')
  {
    hide Jobs.IsSelection, Jobs.Reconcile;
    OnlyLastSelected(db.contributions);
    ReconcileSingle(db, |db.contributions| - 1, map[ref := Jobs.PaidStatus(amount, None)], 1);
  }

  lemma EnrolLast(db: Db, p: nat)
    requires p < |db.purses| && db.purses[p] == PURSE
    ensures Apply(db, Enrol(p, 0)) == db.(contributions := db.contributions + [NewContribution(p, PRICE, 0)])
  {
  }

  /** One more person joins purse p and pays this amount. */
  lemma JoinAndPay(db: Db, p: nat, ref: Ref, amount: nat) returns (db': Db)
    requires SweepReachable(db) && p < |db.purses| && db.purses[p] == PURSE
    requires ref !in db.invoices && AllResolved(db.contributions)
    ensures SweepReachable(db') && SameLedger(db, db')
    ensures db'.contributions == db.contributions + [After(p, ref, amount)]
    ensures db'.invoices.Keys == db.invoices.Keys + {ref}
  {
    hide SweepReachable, Apply, Jobs.IsSelection;
    var i := |db.contributions|;
    EnrolLast(db, p);
    db' := ThenSweepStep(db, Enrol(p, 0));
    InvoiceLast(db', p, ref);
    db' := ThenSweepStep(db', RequestInvoice(i, Some(ProviderInvoice(ref, Some("0"), 50)), None, 0));
    assert db'.contributions[..i] == db.contributions;
    PayLast(db', p, ref, amount);
    db' := ThenSweepStep(db', RunReconciliation(Jobs.Everything, [i], map[ref := Jobs.PaidStatus(amount, None)], 1));
  }

  // ----- balances -----

  function PaidAmount(c: Contribution, p: nat): Kobo {
    if c.purse == p && c.status.Paid? then c.received else 0
  }

  /** A contribution more moves the collected total of its purse. */
  lemma CollectedPush(db: Db, db': Db, c: Contribution, p: nat)
    requires db'.contributions == db.contributions + [c]
    requires db'.payouts == db.payouts && db'.allocations == db.allocations
    ensures CollectedTotal(db', p) == CollectedTotal(db, p) + PaidAmount(c, p)
    ensures AvailableBalance(db', p) == AvailableBalance(db, p) + PaidAmount(c, p)
  {
    var row := Posting(c.purse, if c.status.Paid? then c.received else 0);
    assert PaidRows(db'.contributions) == PaidRows(db.contributions) + [row];
    TotalPush(PaidRows(db.contributions), row, p);
  }

  lemma SumOfTwo(a: int, b: int)
    ensures Sum([a, b]) == a + b
  {
    SumPush([a], b);
    assert [a] + [b] == [a, b];
  }

  /** The two-purse group's balance. */
  lemma GroupOfTwo(db: Db)
    requires PayoutsOk(db) && db.purses == [PURSE, PURSE]
    ensures GroupBalance(db, 0) == AvailableBalance(db, 0) + AvailableBalance(db, 1)
  {
    hide PayoutsOk;
    BalancesAgree(db, 0);
    assert PurseBalances(db, 0) == [AvailableBalance(db, 0), AvailableBalance(db, 1)];
    SumOfTwo(AvailableBalance(db, 0), AvailableBalance(db, 1));
  }

  lemma NothingYet(db: Db, p: nat)
    requires db.contributions == [] && db.payouts == [] && db.allocations == []
    ensures CollectedTotal(db, p) == 0 && AvailableBalance(db, p) == 0
  {
  }

  /** Two purses of one group, each with one payment of 20000 kobo. */
  lemma TwoPaidPurses() returns (db: Db)
    ensures SweepReachable(db) && db.groups == 1 && db.purses == [PURSE, PURSE] && AllResolved(db.contributions)
    ensures db.invoices.Keys == {"A", "B"}
    ensures CollectedTotal(db, 0) == PRICE && CollectedTotal(db, 1) == PRICE
    ensures AvailableBalance(db, 0) == PRICE && AvailableBalance(db, 1) == PRICE
  {
    hide SweepReachable, CollectedTotal, AvailableBalance;
    var db0 := NoPurses();
    db0 := OnePurseMore(db0);
    db0 := OnePurseMore(db0);
    NothingYet(db0, 0);
    NothingYet(db0, 1);
    var db1 := JoinAndPay(db0, 0, "A", PRICE);
    CollectedPush(db0, db1, After(0, "A", PRICE), 0);
    CollectedPush(db0, db1, After(0, "A", PRICE), 1);
    db := JoinAndPay(db1, 1, "B", PRICE);
    CollectedPush(db1, db, After(1, "B", PRICE), 0);
    CollectedPush(db1, db, After(1, "B", PRICE), 1);
  }

  // ----- requests on two purses -----

  const SCAN: seq<nat> := [0, 1]

  function Request(purse: Option<nat>, amount: Kobo): Step {
    RequestPayout(ADMIN, PayoutRequest(0, purse, amount), GATE, SCAN)
  }

  lemma ScanIsComplete(db: Db)
    requires db.purses == [PURSE, PURSE]
    ensures IsScan(db, 0, SCAN)
  {
    assert SCAN[0] == 0 && SCAN[1] == 1;
  }

  /** A purse-scoped payout within its purse's balance. */
  lemma PayOut(db: Db, p: nat, amount: Kobo) returns (db': Db)
    requires Reachable(db) && db.groups == 1 && db.purses == [PURSE, PURSE]
    requires p < 2 && 0 < amount <= AvailableBalance(db, p)
    ensures Reachable(db') && db'.groups == 1 && db'.purses == db.purses && db'.contributions == db.contributions
    ensures forall q: nat :: AvailableBalance(db', q) == AvailableBalance(db, q) - if q == p then amount else 0
    ensures forall q: nat :: CollectedTotal(db', q) == CollectedTotal(db, q)
  {
    hide Reachable;
    ReachableInv(db);
    ScanIsComplete(db);
    var req := PayoutRequest(0, Some(p), amount);
    assert CreatePayout(db, ADMIN, req, GATE, SCAN).1.Ok?;
    db' := ThenStep(db, Request(Some(p), amount));
    forall q: nat ensures AvailableBalance(db', q) == AvailableBalance(db, q) - if q == p then amount else 0 {
      DirectRequestEffect(db, ADMIN, req, GATE, SCAN, q);
    }
  }

  lemma BothEligible(db: Db)
    requires AvailableBalance(db, 0) > 0 && AvailableBalance(db, 1) > 0
    ensures EligibleOf(db, SCAN) == [Eligible(0, CollectedTotal(db, 0)), Eligible(1, CollectedTotal(db, 1))]
    ensures Weight(EligibleOf(db, SCAN)) == CollectedTotal(db, 0) + CollectedTotal(db, 1)
  {
    assert SCAN[..1] == [0] && SCAN[..1][..0] == [];
    assert EligibleOf(db, SCAN[..1][..0]) == [];
    assert EligibleOf(db, SCAN[..1]) == [Eligible(0, CollectedTotal(db, 0))];
    var el := [Eligible(0, CollectedTotal(db, 0)), Eligible(1, CollectedTotal(db, 1))];
    assert Weights(el) == [CollectedTotal(db, 0), CollectedTotal(db, 1)];
    SumOfTwo(CollectedTotal(db, 0), CollectedTotal(db, 1));
  }

  /** The two shares of a sweep. */
  lemma TwoShares(el: seq<Eligible>, amount: Kobo, first: int)
    requires |el| == 2 && Weight(el) > 0 && FloorShare(amount, el[0].collected, Weight(el)) == first
    ensures Shares(amount, el) == [first, amount - first]
  {
    var floors := FloorShares(amount, el, Weight(el));
    assert floors == [floors[0], floors[1]];
    SumOfTwo(floors[0], floors[1]);
  }

  lemma SweepPassesCheck(db: Db, amount: Kobo)
    requires db.groups == 1 && 0 < amount <= GroupBalance(db, 0)
    ensures CreatePayout(db, ADMIN, PayoutRequest(0, None, amount), GATE, SCAN).1.Ok?
  {
  }

  /** A sweep that charges purse 0 its floor, and purse 1 the rest. */
  lemma SweepBoth(db: Db, amount: Kobo, first: int)
    requires Inv(db) && db.groups == 1 && db.purses == [PURSE, PURSE]
    requires AvailableBalance(db, 0) > 0 && AvailableBalance(db, 1) > 0
    requires 0 < amount <= AvailableBalance(db, 0) + AvailableBalance(db, 1)
    requires CollectedTotal(db, 0) + CollectedTotal(db, 1) > 0
    requires FloorShare(amount, CollectedTotal(db, 0), CollectedTotal(db, 0) + CollectedTotal(db, 1)) == first
    ensures CreatePayout(db, ADMIN, PayoutRequest(0, None, amount), GATE, SCAN).1.Ok?
    ensures var db' := Apply(db, Request(None, amount));
      && AvailableBalance(db', 0) == AvailableBalance(db, 0) - first
      && AvailableBalance(db', 1) == AvailableBalance(db, 1) - (amount - first)
      && (forall q: nat :: CollectedTotal(db', q) == CollectedTotal(db, q))
      && db'.groups == 1 && db'.purses == db.purses && db'.contributions == db.contributions
      && db'.invoices == db.invoices
  {
    GroupOfTwo(db);
    SweepPassesCheck(db, amount);
    ScanIsComplete(db);
    BothEligible(db);
    var el := EligibleOf(db, SCAN);
    TwoShares(el, amount, first);
    assert el[0].purse == 0 && el[1].purse == 1;
    var req := PayoutRequest(0, None, amount);
    SweepLeaves(db, ADMIN, req, GATE, SCAN, 0);
    SweepLeaves(db, ADMIN, req, GATE, SCAN, 1);
    SweepStored(db, amount);
  }

  lemma SweepStored(db: Db, amount: Kobo)
    ensures var db' := Apply(db, Request(None, amount));
      && db' == CreatePayout(db, ADMIN, PayoutRequest(0, None, amount), GATE, SCAN).0
      && db'.groups == db.groups && db'.purses == db.purses && db'.contributions == db.contributions
      && db'.invoices == db.invoices
  {
  }

  // ----- what the code does not keep -----

  /** A run that mixes both kinds of payout can overdraw a purse and then the
      whole group: the last payout is within its purse's balance, not the group's. */
  lemma MixedRunOverdraws() returns (db: Db)
    ensures Reachable(db) && AvailableBalance(db, 0) == -9_000 && GroupBalance(db, 0) == -9_000
  {
    hide Reachable, SweepReachable, Inv, CollectedTotal, AvailableBalance, GroupBalance;
    var db0 := TwoPaidPurses();
    SweepReachableIsReachable(db0);
    var db1 := PayOut(db0, 0, 18_000);
    ReachableInv(db1);
    SweepBoth(db1, 22_000, 11_000);
    ScanIsComplete(db1);
    var db2 := ThenStep(db1, Request(None, 22_000));
    db := PayOut(db2, 1, 9_000);
    ReachableInv(db);
    InvParts(db);
    GroupOfTwo(db);
  }

  /** An even sweep of half the money, then another payment into purse 0. */
  lemma SweptThenPaid() returns (db: Db)
    ensures SweepReachable(db) && Inv(db) && db.groups == 1 && db.purses == [PURSE, PURSE]
    ensures CollectedTotal(db, 0) == 40_000 && CollectedTotal(db, 1) == PRICE
    ensures AvailableBalance(db, 0) == 30_000 && AvailableBalance(db, 1) == 10_000
  {
    hide Reachable, SweepReachable, Inv, CollectedTotal, AvailableBalance, Apply;
    var db0 := TwoPaidPurses();
    SweepReachableIsReachable(db0);
    ScanIsComplete(db0);
    SweepBoth(db0, 20_000, 10_000);
    var db1 := ThenSweepStep(db0, Request(None, 20_000));
    db := JoinAndPay(db1, 0, "C", PRICE);
    CollectedPush(db1, db, After(0, "C", PRICE), 0);
    CollectedPush(db1, db, After(0, "C", PRICE), 1);
    SweepReachableIsReachable(db);
  }

  /** Sweeps alone overdraw purses, and by more than rounding: after an even sweep,
      another payment into purse 0 makes the next sweep of everything charge purse
      1 for money that purse 0 has left. It is a sweep that does not fit. */
  lemma SweepsOnlyOverdraw() returns (before: Db, after: Db)
    ensures SweepReachable(before) && after == Apply(before, Request(None, 40_000)) && SweepReachable(after)
    ensures AvailableBalance(before, 0) == 30_000 && AvailableBalance(before, 1) == 10_000
    ensures AvailableBalance(after, 1) == -3_334
    ensures PursesSolvent(before) && !SharesFit(before, SCAN, 40_000) && !EveryPurseCovers(before, 0, 40_000)
  {
    hide Reachable, SweepReachable, Inv, CollectedTotal, AvailableBalance, PursesSolvent, Apply;
    before := SweptThenPaid();
    ScanIsComplete(before);
    SweepBoth(before, 40_000, 26_666);
    BothSolvent(before);
    after := ThenSweepStep(before, Request(None, 40_000));
    OverdrawnDoesNotFit(before, after);
  }

  lemma OverdrawnDoesNotFit(before: Db, after: Db)
    requires Inv(before) && before.purses == [PURSE, PURSE] && after == Apply(before, Request(None, 40_000))
    requires CreatePayout(before, ADMIN, PayoutRequest(0, None, 40_000), GATE, SCAN).1.Ok?
    requires AvailableBalance(after, 1) < 0 && PursesSolvent(before)
    ensures !SharesFit(before, SCAN, 40_000) && !EveryPurseCovers(before, 0, 40_000)
  {
    hide AvailableBalance;
    var req := PayoutRequest(0, None, 40_000);
    ScanIsComplete(before);
    SweepKeepsPursesIff(before, ADMIN, req, GATE, SCAN);
    AcceptedIffAffordable(before, ADMIN, req, GATE, SCAN);
    FitWhenCovered(before, ADMIN, req, GATE, SCAN);
    SweepStored(before, 40_000);
    assert !PursesSolvent(after);
  }

  /** Nothing is booked on a purse that does not exist. */
  lemma BeyondTable(db: Db, p: nat)
    requires Inv(db) && p >= |db.purses|
    ensures AvailableBalance(db, p) == 0
  {
    SumZero(Column(PaidRows(db.contributions), p));
    forall k | 0 <= k < |db.payouts| ensures Column(DirectRows(db.payouts), p)[k] == 0 {
      assert PayoutKnown(db.payouts[k], db.purses);
    }
    SumZero(Column(DirectRows(db.payouts), p));
    forall a | 0 <= a < |db.allocations| ensures Column(AllocationRows(db.allocations, db.payouts), p)[a] == 0 {
      assert AllocationKnown(db.allocations[a], db.payouts, db.purses);
    }
    SumZero(Column(AllocationRows(db.allocations, db.payouts), p));
  }

  lemma BothSolvent(db: Db)
    requires Inv(db) && db.purses == [PURSE, PURSE] && AvailableBalance(db, 0) >= 0 && AvailableBalance(db, 1) >= 0
    ensures PursesSolvent(db)
  {
    hide Inv;
    forall p: nat ensures AvailableBalance(db, p) >= 0 {
      if p >= 2 {
        BeyondTable(db, p);
      }
    }
  }

  /** Nothing stops an overpaid contribution from being sent back for a top-up: it
      is then invoiced for a negative amount. */
  lemma OverpaidIsInvoicedNegatively() returns (db: Db)
    ensures Reachable(db) && "B" in db.invoices && db.invoices["B"] == IssuedInvoice(0, -10_000)
  {
    hide Reachable, SweepReachable, Inv;
    var db0 := NoPurses();
    db0 := OnePurseMore(db0);
    var db1 := JoinAndPay(db0, 0, "A", 30_000);
    SweepReachableIsReachable(db1);
    var db2 := ThenStep(db1, DecideFlag(0, ADMIN, RequestTopup, 2));
    var answer := ProviderInvoice("B", Some("0"), 50);
    TopUpInvoice(db2, answer);
    assert "B" !in db2.invoices;
    db := ThenStep(db2, RequestInvoice(0, Some(answer), None, 3));
  }

  lemma TopUpInvoice(db: Db, answer: ProviderInvoice)
    requires |db.contributions| == 1 && db.purses == [PURSE]
    requires db.contributions[0] == ClearInvoice(After(0, "A", 30_000)).(status := Pending, updatedAt := 2)
    ensures var db' := Apply(db, RequestInvoice(0, Some(answer), None, 3));
      answer.ref in db'.invoices && db'.invoices[answer.ref] == IssuedInvoice(0, -10_000)
  {
  }

  // ----- the rounding bound is attained -----

  /** One kobo of the price is paid, and accepted as final. */
  function KoboAccepted(p: nat, ref: Ref): Contribution {
    After(p, ref, 1).(status := Paid, paidAt := Some(2), updatedAt := 2)
  }

  lemma AcceptLast(db: Db, p: nat, ref: Ref)
    requires |db.contributions| > 0 && db.contributions[|db.contributions| - 1] == After(p, ref, 1)
    ensures var i := |db.contributions| - 1;
      var db' := Apply(db, DecideFlag(i, ADMIN, AcceptPartial, 2));
      && db'.contributions == db.contributions[i := KoboAccepted(p, ref)]
      && db'.invoices == db.invoices && SameLedger(db, db')
  {
  }

  lemma JoinAndPayKobo(db: Db, p: nat, ref: Ref) returns (db': Db)
    requires SweepReachable(db) && p < |db.purses| && db.purses[p] == PURSE
    requires ref !in db.invoices && AllResolved(db.contributions)
    ensures SweepReachable(db') && SameLedger(db, db')
    ensures db'.contributions == db.contributions + [KoboAccepted(p, ref)]
    ensures db'.invoices.Keys == db.invoices.Keys + {ref}
  {
    hide SweepReachable;
    var i := |db.contributions|;
    db' := JoinAndPay(db, p, ref, 1);
    AcceptLast(db', p, ref);
    db' := ThenSweepStep(db', DecideFlag(i, ADMIN, AcceptPartial, 2));
  }

  /** A reference that is longer than any used before. */
  function Reference(n: nat): (r: Ref)
    ensures |r| == n + 1
  {
    seq(n + 1, i => 'x')
  }

  /** n purses of one group, each holding one kobo, and no payouts. */
  ghost predicate KoboLedger(db: Db, n: nat) {
    && db.groups == 1 && |db.purses| == n && (forall p :: 0 <= p < n ==> db.purses[p] == PURSE)
    && db.payouts == [] && db.allocations == [] && AllResolved(db.contributions)
    && (forall r :: r in db.invoices ==> |r| <= n)
    && (forall p: nat :: CollectedTotal(db, p) == AvailableBalance(db, p) == if p < n then 1 else 0)
  }

  lemma KoboLedgerGrows(db: Db, db1: Db, db': Db, n: nat)
    requires KoboLedger(db, n) && db1 == db.(purses := db.purses + [PURSE]) && SameLedger(db1, db')
    requires db'.contributions == db1.contributions + [KoboAccepted(n, Reference(n))]
    requires db'.invoices.Keys == db1.invoices.Keys + {Reference(n)}
    ensures KoboLedger(db', n + 1)
  {
    hide CollectedTotal, AvailableBalance;
    forall p: nat
      ensures CollectedTotal(db', p) == CollectedTotal(db, p) + PaidAmount(KoboAccepted(n, Reference(n)), p)
      ensures AvailableBalance(db', p) == AvailableBalance(db, p) + PaidAmount(KoboAccepted(n, Reference(n)), p)
    {
      CollectedPush(db, db', KoboAccepted(n, Reference(n)), p);
    }
  }

  lemma {:induction false} ReachKoboLedger(n: nat) returns (db: Db)
    ensures SweepReachable(db) && KoboLedger(db, n)
  {
    hide SweepReachable;
    if n == 0 {
      db := NoPurses();
      forall p: nat ensures CollectedTotal(db, p) == 0 && AvailableBalance(db, p) == 0 {
        NothingYet(db, p);
      }
    } else {
      var before := ReachKoboLedger(n - 1);
      var db1 := OnePurseMore(before);
      db := JoinAndPayKobo(db1, n - 1, Reference(n - 1));
      KoboLedgerGrows(before, db1, db, n - 1);
    }
  }

  function InOrder(n: nat): (scan: seq<nat>)
    ensures |scan| == n && forall i :: 0 <= i < n ==> scan[i] == i
  {
    seq(n, i requires 0 <= i < n => i)
  }

  lemma {:induction false} KoboPursesEligible(db: Db, n: nat, k: nat)
    requires KoboLedger(db, n) && k <= n
    ensures EligibleOf(db, InOrder(k)) == OneKoboEach(k)
  {
    if k > 0 {
      KoboPursesEligible(db, n, k - 1);
      assert InOrder(k)[..k - 1] == InOrder(k - 1);
      assert OneKoboEach(k) == OneKoboEach(k - 1) + [Eligible(k - 1, 1)];
    }
  }

  lemma KoboGroupBalance(db: Db, n: nat)
    requires PayoutsOk(db) && KoboLedger(db, n)
    ensures GroupBalance(db, 0) == n
  {
    hide PayoutsOk;
    BalancesAgree(db, 0);
    AllOnes(PurseBalances(db, 0));
  }

  /** For every n >= 2 the ledger reaches a state in which a group of n purses owes
      nothing, and a sweep that leaves its last purse n - 2 kobo below zero. */
  lemma RoundingBoundIsReached(n: nat) returns (before: Db, after: Db)
    requires n >= 2
    ensures Reachable(before) && OwesNothing(before, 0) && |EligibleOf(before, InOrder(n))| == n
    ensures after == Apply(before, RequestPayout(ADMIN, PayoutRequest(0, None, n - 1), GATE, InOrder(n)))
    ensures Reachable(after) && AvailableBalance(after, n - 1) == -Slack(n)
  {
    hide Reachable, SweepReachable, Inv, AvailableBalance, CollectedTotal, GroupBalance;
    before := ReachKoboLedger(n);
    SweepReachableIsReachable(before);
    InvParts(before);
    KoboGroupBalance(before, n);
    KoboPursesEligible(before, n, n);
    FreshSweepBoundIsTight(n);
    var scan, req := InOrder(n), PayoutRequest(0, None, n - 1);
    KoboScan(before, n);
    KoboSweepAccepted(before, n, scan);
    SweepLeaves(before, ADMIN, req, GATE, scan, n - 1);
    after := ThenStep(before, RequestPayout(ADMIN, req, GATE, scan));
    assert after == CreatePayout(before, ADMIN, req, GATE, scan).0;
  }

  lemma KoboScan(db: Db, n: nat)
    requires KoboLedger(db, n)
    ensures IsScan(db, 0, InOrder(n)) && OwesNothing(db, 0)
  {
    forall p | 0 <= p < |db.purses| ensures p in InOrder(n) {
      assert InOrder(n)[p] == p;
    }
  }

  lemma KoboSweepAccepted(db: Db, n: nat, scan: seq<nat>)
    requires n >= 2 && db.groups == 1 && GroupBalance(db, 0) == n
    ensures CreatePayout(db, ADMIN, PayoutRequest(0, None, n - 1), GATE, scan).1.Ok?
  {
  }
}
