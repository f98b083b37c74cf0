/** What every payout step keeps, and the agreement of the two balances. */
module PayoutLaws {
  import opened Rows
  import opened Sums
  import opened Sweep
  import opened ContributionLaws
  import opened Payouts

  // ----- the invariant -----

  ghost predicate PayoutKnown(p: Payout, purses: seq<Purse>) {
    && p.amount > 0
    && (p.purse.Some? ==> p.purse.value < |purses| && purses[p.purse.value].group == p.group)
  }

  ghost predicate PayoutsKnown(ps: seq<Payout>, purses: seq<Purse>) {
    forall k :: 0 <= k < |ps| ==> PayoutKnown(ps[k], purses)
  }

  /** An allocation belongs to a sweep and draws on a purse of the sweep's group. */
  ghost predicate AllocationKnown(a: Allocation, ps: seq<Payout>, purses: seq<Purse>) {
    && a.amount > 0
    && a.payout < |ps| && ps[a.payout].purse.None?
    && a.purse < |purses| && purses[a.purse].group == ps[a.payout].group
  }

  ghost predicate AllocationsKnown(allocs: seq<Allocation>, ps: seq<Payout>, purses: seq<Purse>) {
    forall a :: 0 <= a < |allocs| ==> AllocationKnown(allocs[a], ps, purses)
  }

  /** Allocations booked on the payout they belong to. */
  function ByPayout(allocs: seq<Allocation>): (r: seq<Posting>)
    ensures |r| == |allocs|
    ensures forall a :: 0 <= a < |allocs| ==> r[a] == Posting(allocs[a].payout, allocs[a].amount)
  {
    seq(|allocs|, a requires 0 <= a < |allocs| => Posting(allocs[a].payout, allocs[a].amount))
  }

  /** The allocations of every sweep total its amount. */
  ghost predicate SweepsCovered(allocs: seq<Allocation>, ps: seq<Payout>) {
    forall k :: 0 <= k < |ps| && ps[k].purse.None? ==> Total(ByPayout(allocs), k) == ps[k].amount
  }

  predicate PayoutEdge(from: PayoutStatus, to: PayoutStatus, actor: PayoutActorType) {
    match actor
    case GroupAdminActor => false
    case PlatformAdminActor =>
      || (from.Requested? && (to.Approved? || to.Rejected?))
      || (from.Approved? && (to.Processing? || to.Failed?))
    case TransferWebhook => from.Processing? && (to.Completed? || to.Failed?)
  }

  function PayoutStatusAfter(es: seq<PayoutEvent>, k: nat): Option<PayoutStatus> {
    if es == [] then Some(Requested)
    else
      var e, s := es[|es| - 1], PayoutStatusAfter(es[..|es| - 1], k);
      if e.payout != k then s
      else if s == Some(e.from) && PayoutEdge(e.from, e.to, e.actor) then Some(e.to)
      else None
  }

  function EventCount(es: seq<PayoutEvent>, k: nat): nat {
    if es == [] then 0 else EventCount(es[..|es| - 1], k) + if es[|es| - 1].payout == k then 1 else 0
  }

  /** How many events a payout in this status has had; a failed one 2 or 3. */
  predicate CountFits(s: PayoutStatus, n: nat) {
    match s
    case Requested => n == 0
    case Approved => n == 1
    case Rejected => n == 1
    case Processing => n == 2
    case Completed => n == 3
    case Failed => n == 2 || n == 3
  }

  ghost predicate PayoutsReplay(ps: seq<Payout>, es: seq<PayoutEvent>) {
    && (forall x :: 0 <= x < |es| ==> es[x].payout < |ps|)
    && (forall k :: 0 <= k < |ps| ==>
          PayoutStatusAfter(es, k) == Some(ps[k].status) && CountFits(ps[k].status, EventCount(es, k)))
  }

  function PayoutAudit(audit: seq<AuditEntry>): seq<AuditEntry> {
    if audit == [] then []
    else
      var a := audit[|audit| - 1];
      PayoutAudit(audit[..|audit| - 1]) + if a.PayoutTransition? then [a] else []
  }

  function AuditOfPayoutEvent(e: PayoutEvent): AuditEntry {
    PayoutTransition(e.payout, e.from, e.to, PayoutAuditActorOf(e.actor), e.actorId)
  }

  function AuditOfPayoutEvents(es: seq<PayoutEvent>): seq<AuditEntry> {
    if es == [] then [] else AuditOfPayoutEvents(es[..|es| - 1]) + [AuditOfPayoutEvent(es[|es| - 1])]
  }

  ghost predicate PayoutAuditMirrors(audit: seq<AuditEntry>, es: seq<PayoutEvent>) {
    PayoutAudit(audit) == AuditOfPayoutEvents(es)
  }

  ghost predicate PayoutsOk(db: Db) {
    && PayoutsKnown(db.payouts, db.purses)
    && AllocationsKnown(db.allocations, db.payouts, db.purses)
    && SweepsCovered(db.allocations, db.payouts)
    && PayoutsReplay(db.payouts, db.payoutEvents)
    && PayoutAuditMirrors(db.audit, db.payoutEvents)
  }

  predicate Terminal(s: PayoutStatus) {
    s.Completed? || s.Failed? || s.Rejected?
  }

  /** A payout keeps its terms for ever, and its row once it is finished. */
  ghost predicate PayoutsProgress(db: Db, db': Db) {
    && |db.payouts| <= |db'.payouts|
    && (forall k :: 0 <= k < |db.payouts| ==>
          && db'.payouts[k].group == db.payouts[k].group
          && db'.payouts[k].purse == db.payouts[k].purse
          && db'.payouts[k].amount == db.payouts[k].amount
          && (Terminal(db.payouts[k].status) ==> db'.payouts[k] == db.payouts[k]))
    && db.allocations <= db'.allocations
    && db.payoutEvents <= db'.payoutEvents
    && db.audit <= db'.audit
  }

  /** A step of the payout side leaves every other table alone, and adds only
      payout transitions to the audit log. */
  ghost predicate TouchesOnlyPayouts(db: Db, db': Db) {
    && db'.groups == db.groups && db'.purses == db.purses && db'.webhookEvents == db.webhookEvents
    && db'.contributions == db.contributions && db'.contributionEvents == db.contributionEvents
    && db'.invoices == db.invoices && db'.credits == db.credits
    && db.audit <= db'.audit
    && forall j :: |db.audit| <= j < |db'.audit| ==> db'.audit[j].PayoutTransition?
  }

  lemma {:induction false} PayoutAuditFrame(audit: seq<AuditEntry>, audit': seq<AuditEntry>)
    requires audit <= audit'
    requires forall j :: |audit| <= j < |audit'| ==> !audit'[j].PayoutTransition?
    ensures PayoutAudit(audit') == PayoutAudit(audit)
  {
    if audit' != audit {
      PayoutAuditFrame(audit, audit'[..|audit'| - 1]);
    }
  }

  // ----- the two balances agree -----

  /** The available balance of every purse of the group, and 0 for the others. */
  function PurseBalances(db: Db, group: nat): (r: seq<int>)
    ensures |r| == |db.purses|
    ensures forall p :: 0 <= p < |r| ==> r[p] == if db.purses[p].group == group then AvailableBalance(db, p) else 0
  {
    seq(|db.purses|, p requires 0 <= p < |db.purses| =>
      if db.purses[p].group == group then AvailableBalance(db, p) else 0)
  }

  /** Outstanding payouts of the group, per payout. */
  function GroupPayouts(ps: seq<Payout>, group: nat): (m: seq<bool>)
    ensures |m| == |ps| && forall k :: 0 <= k < |ps| ==> m[k] == (ps[k].group == group && IsOutstanding(ps[k].status))
  {
    seq(|ps|, k requires 0 <= k < |ps| => ps[k].group == group && IsOutstanding(ps[k].status))
  }

  /** One payout is taken either directly or through its allocations. */
  lemma PayoutSplit(db: Db, group: nat, k: nat)
    requires PayoutsOk(db) && k < |db.payouts|
    ensures Column(GroupRows(db.payouts), group)[k] ==
      Masked(DirectRows(db.payouts), Members(db.purses, group))[k] +
      KeyTotals(ByPayout(db.allocations), GroupPayouts(db.payouts, group))[k]
  {
    assert PayoutKnown(db.payouts[k], db.purses);
    if db.payouts[k].purse.Some? {
      NoAllocations(db.allocations, db.payouts, db.purses, k);
    }
  }

  /** The allocations of a group's outstanding sweeps are those drawn on its purses. */
  lemma AllocationsStayInside(db: Db, group: nat)
    requires PayoutsOk(db)
    ensures Masked(ByPayout(db.allocations), GroupPayouts(db.payouts, group)) ==
      Masked(AllocationRows(db.allocations, db.payouts), Members(db.purses, group))
  {
    var ps, m := db.payouts, Members(db.purses, group);
    forall a | 0 <= a < |db.allocations|
      ensures Masked(ByPayout(db.allocations), GroupPayouts(ps, group))[a] == Masked(AllocationRows(db.allocations, ps), m)[a]
    {
      assert AllocationKnown(db.allocations[a], ps, db.purses);
    }
  }

  /** What the group's outstanding payouts take: directly from its purses, and through allocations. */
  lemma GroupPayoutsSplit(db: Db, group: nat)
    requires PayoutsOk(db)
    ensures Total(GroupRows(db.payouts), group) ==
      Sum(Masked(DirectRows(db.payouts), Members(db.purses, group))) +
      Sum(Masked(AllocationRows(db.allocations, db.payouts), Members(db.purses, group)))
  {
    hide PayoutsOk, Sum;
    var direct := Masked(DirectRows(db.payouts), Members(db.purses, group));
    var swept := KeyTotals(ByPayout(db.allocations), GroupPayouts(db.payouts, group));
    forall k | 0 <= k < |db.payouts| ensures Column(GroupRows(db.payouts), group)[k] == direct[k] + swept[k] {
      PayoutSplit(db, group, k);
    }
    SumAdds(direct, swept, Column(GroupRows(db.payouts), group));
    Exchange(ByPayout(db.allocations), GroupPayouts(db.payouts, group));
    AllocationsStayInside(db, group);
  }

  lemma NoAllocations(allocs: seq<Allocation>, ps: seq<Payout>, purses: seq<Purse>, k: nat)
    requires AllocationsKnown(allocs, ps, purses) && k < |ps| && ps[k].purse.Some?
    ensures Total(ByPayout(allocs), k) == 0
  {
    forall a | 0 <= a < |allocs| ensures Column(ByPayout(allocs), k)[a] == 0 {
      assert AllocationKnown(allocs[a], ps, purses);
    }
    SumZero(Column(ByPayout(allocs), k));
  }

  /** The purse balances of a group add up to the group balance. */
  lemma BalancesAgree(db: Db, group: nat)
    requires PayoutsOk(db)
    ensures Sum(PurseBalances(db, group)) == GroupBalance(db, group)
  {
    var m := Members(db.purses, group);
    var paid, direct, swept := PaidRows(db.contributions), DirectRows(db.payouts), AllocationRows(db.allocations, db.payouts);
    var taken := seq(|m|, p requires 0 <= p < |m| => KeyTotals(direct, m)[p] + KeyTotals(swept, m)[p]);
    SumAdds(KeyTotals(direct, m), KeyTotals(swept, m), taken);
    SumAdds(PurseBalances(db, group), taken, KeyTotals(paid, m));
    Exchange(paid, m);
    Exchange(direct, m);
    Exchange(swept, m);
    GroupPayoutsSplit(db, group);
  }

  /** A group with money has a purse with money. */
  lemma SomePurseHasMoney(db: Db, group: nat)
    requires PayoutsOk(db) && GroupBalance(db, group) > 0
    ensures exists p :: 0 <= p < |db.purses| && db.purses[p].group == group && AvailableBalance(db, p) > 0
  {
    BalancesAgree(db, group);
    var b := PurseBalances(db, group);
    if forall p :: 0 <= p < |b| ==> b[p] <= 0 {
      SumMonotone(b, seq(|b|, p => 0));
      SumZero(seq(|b|, p => 0));
    }
    var p :| 0 <= p < |b| && b[p] > 0;
  }

  // ----- the parts of a balance have a sign -----

  lemma PartsNonNegative(db: Db, p: nat)
    requires ContributionsOk(db) && PayoutsOk(db)
    ensures CollectedTotal(db, p) >= 0 && DirectTotal(db, p) >= 0 && AllocatedTotal(db, p) >= 0
  {
    forall i | 0 <= i < |db.contributions| ensures db.contributions[i].received >= 0 {
      TotalNonNegative(CreditRows(db.credits), i);
    }
    TotalNonNegative(PaidRows(db.contributions), p);
    forall k | 0 <= k < |db.payouts| ensures DirectRow(db.payouts[k]).amount >= 0 {
      assert PayoutKnown(db.payouts[k], db.purses);
    }
    TotalNonNegative(DirectRows(db.payouts), p);
    forall a | 0 <= a < |db.allocations| ensures AllocationRow(db.allocations[a], db.payouts).amount >= 0 {
      assert AllocationKnown(db.allocations[a], db.payouts, db.purses);
    }
    TotalNonNegative(AllocationRows(db.allocations, db.payouts), p);
  }

  // ----- moving a payout along its state machine -----

  lemma PayoutAuditPush(audit: seq<AuditEntry>, a: AuditEntry)
    ensures PayoutAudit(audit + [a]) == PayoutAudit(audit) + if a.PayoutTransition? then [a] else []
  {
  }

  lemma AuditOfPayoutEventsPush(es: seq<PayoutEvent>, e: PayoutEvent)
    ensures AuditOfPayoutEvents(es + [e]) == AuditOfPayoutEvents(es) + [AuditOfPayoutEvent(e)]
  {
  }

  lemma {:induction false} NoPayoutEvents(es: seq<PayoutEvent>, k: nat)
    requires forall x :: 0 <= x < |es| ==> es[x].payout != k
    ensures PayoutStatusAfter(es, k) == Some(Requested) && EventCount(es, k) == 0
  {
    if es != [] {
      NoPayoutEvents(es[..|es| - 1], k);
    }
  }

  /** The same payout further along: its terms are those it was requested with. */
  predicate SameTerms(p: Payout, q: Payout) {
    p.group == q.group && p.purse == q.purse && p.amount == q.amount
  }

  lemma MoveKeepsTables(db: Db, k: nat, p: Payout)
    requires PayoutsKnown(db.payouts, db.purses) && AllocationsKnown(db.allocations, db.payouts, db.purses)
    requires SweepsCovered(db.allocations, db.payouts)
    requires k < |db.payouts| && SameTerms(p, db.payouts[k])
    ensures PayoutsKnown(db.payouts[k := p], db.purses)
    ensures AllocationsKnown(db.allocations, db.payouts[k := p], db.purses)
    ensures SweepsCovered(db.allocations, db.payouts[k := p])
  {
  }

  lemma MoveKeepsLog(ps: seq<Payout>, es: seq<PayoutEvent>, k: nat, p: Payout, actor: PayoutActorType, actorId: Option<nat>)
    requires PayoutsReplay(ps, es) && k < |ps| && PayoutEdge(ps[k].status, p.status, actor)
    ensures PayoutsReplay(ps[k := p], es + [PayoutEvent(k, ps[k].status, p.status, actor, actorId)])
  {
  }

  lemma MoveProgress(db: Db, k: nat, p: Payout, actor: PayoutActorType, actorId: Option<nat>)
    requires k < |db.payouts| && SameTerms(p, db.payouts[k]) && !Terminal(db.payouts[k].status)
    ensures PayoutsProgress(db, Move(db, k, p, actor, actorId))
    ensures TouchesOnlyPayouts(db, Move(db, k, p, actor, actorId))
  {
  }

  lemma MoveKeeps(db: Db, k: nat, p: Payout, actor: PayoutActorType, actorId: Option<nat>)
    requires PayoutsOk(db) && k < |db.payouts| && SameTerms(p, db.payouts[k])
    requires PayoutEdge(db.payouts[k].status, p.status, actor)
    ensures PayoutsOk(Move(db, k, p, actor, actorId))
    ensures PayoutsProgress(db, Move(db, k, p, actor, actorId))
    ensures TouchesOnlyPayouts(db, Move(db, k, p, actor, actorId))
  {
    var e := PayoutEvent(k, db.payouts[k].status, p.status, actor, actorId);
    MoveKeepsTables(db, k, p);
    MoveKeepsLog(db.payouts, db.payoutEvents, k, p, actor, actorId);
    MoveProgress(db, k, p, actor, actorId);
    PayoutAuditPush(db.audit, AuditOfPayoutEvent(e));
    AuditOfPayoutEventsPush(db.payoutEvents, e);
  }

  // ----- the database scan behind a sweep -----

  /** An entry of the eligible list: a purse with money, weighted by its collected total. */
  ghost predicate Entitled(db: Db, e: Eligible) {
    && AvailableBalance(db, e.purse) > 0
    && e.collected == CollectedTotal(db, e.purse)
    && e.collected >= AvailableBalance(db, e.purse)
  }

  ghost predicate Lists(el: seq<Eligible>, p: nat) {
    exists x :: 0 <= x < |el| && el[x].purse == p
  }

  lemma ListsPush(el: seq<Eligible>, e: Eligible)
    ensures Lists(el + [e], e.purse)
    ensures forall p :: Lists(el, p) ==> Lists(el + [e], p)
  {
    assert (el + [e])[|el|] == e;
    forall p | Lists(el, p) ensures Lists(el + [e], p) {
      var x :| 0 <= x < |el| && el[x].purse == p;
      assert (el + [e])[x] == el[x];
    }
  }

  /** No purse has more available than it collected. */
  ghost predicate CollectedCovers(db: Db) {
    forall p: nat :: AvailableBalance(db, p) <= CollectedTotal(db, p)
  }

  lemma CollectedCoversHolds(db: Db)
    requires ContributionsOk(db) && PayoutsOk(db)
    ensures CollectedCovers(db)
  {
    forall p: nat ensures AvailableBalance(db, p) <= CollectedTotal(db, p) {
      PartsNonNegative(db, p);
    }
  }

  ghost predicate AllEntitled(db: Db, scan: seq<nat>, el: seq<Eligible>) {
    forall x :: 0 <= x < |el| ==> el[x].purse in scan && Entitled(db, el[x])
  }

  ghost predicate DistinctPurses(el: seq<Eligible>) {
    forall x, y :: 0 <= x < y < |el| ==> el[x].purse != el[y].purse
  }

  lemma {:induction false} EligibleEntitled(db: Db, scan: seq<nat>)
    requires CollectedCovers(db)
    ensures AllEntitled(db, scan, EligibleOf(db, scan))
  {
    if scan != [] {
      EligibleEntitled(db, scan[..|scan| - 1]);
    }
  }

  lemma {:induction false} EligibleDistinct(db: Db, scan: seq<nat>)
    requires CollectedCovers(db)
    requires forall i, j :: 0 <= i < j < |scan| ==> scan[i] != scan[j]
    ensures DistinctPurses(EligibleOf(db, scan))
  {
    if scan != [] {
      EligibleDistinct(db, scan[..|scan| - 1]);
      EligibleEntitled(db, scan[..|scan| - 1]);
    }
  }

  lemma {:induction false} EligibleComplete(db: Db, scan: seq<nat>)
    ensures forall p :: p in scan && AvailableBalance(db, p) > 0 ==> Lists(EligibleOf(db, scan), p)
  {
    if scan != [] {
      var n := |scan| - 1;
      EligibleComplete(db, scan[..n]);
      ListsPush(EligibleOf(db, scan[..n]), Eligible(scan[n], CollectedTotal(db, scan[n])));
      assert scan == scan[..n] + [scan[n]];
    }
  }

  lemma {:induction false} WeightPositive(el: seq<Eligible>)
    requires forall x :: 0 <= x < |el| ==> el[x].collected > 0
    ensures Weight(el) >= 0 && (|el| > 0 ==> Weight(el) > 0)
  {
    if |el| > 0 {
      WeightPositive(el[..|el| - 1]);
      assert Weights(el)[..|el| - 1] == Weights(el[..|el| - 1]);
    }
  }

  lemma EligibleSweepable(db: Db, scan: seq<nat>, amount: Kobo)
    requires CollectedCovers(db) && EligibleOf(db, scan) != [] && amount >= 0
    ensures Sweepable(amount, EligibleOf(db, scan))
  {
    EligibleEntitled(db, scan);
    var el := EligibleOf(db, scan);
    forall x | 0 <= x < |el| ensures el[x].collected > 0 {
      assert Entitled(db, el[x]);
    }
    WeightPositive(el);
  }

  /** The scanned group has money left, so the allocator has someone to charge:
      its early return is never taken. */
  lemma SweepHasPayers(db: Db, group: nat, scan: seq<nat>, amount: Kobo)
    requires ContributionsOk(db) && PayoutsOk(db) && IsScan(db, group, scan)
    requires 0 < amount <= GroupBalance(db, group)
    ensures Sweepable(amount, EligibleOf(db, scan))
  {
    SomePurseHasMoney(db, group);
    var p :| 0 <= p < |db.purses| && db.purses[p].group == group && AvailableBalance(db, p) > 0;
    EligibleComplete(db, scan);
    assert p in scan;
    assert Lists(EligibleOf(db, scan), p);
    CollectedCoversHolds(db);
    EligibleSweepable(db, scan, amount);
  }

  ghost predicate OnlyListed(rows: seq<Allocation>, k: nat, el: seq<Eligible>) {
    forall a :: 0 <= a < |rows| ==> rows[a].payout == k && rows[a].amount > 0 && Lists(el, rows[a].purse)
  }

  /** The rows written for a sweep are positive, and only for listed purses. */
  lemma {:induction false} AllocationsOfListed(k: nat, el: seq<Eligible>, shares: seq<int>)
    requires |el| == |shares|
    ensures OnlyListed(AllocationsOf(k, el, shares), k, el)
  {
    if |el| > 0 {
      var n := |el| - 1;
      AllocationsOfListed(k, el[..n], shares[..n]);
      ListsPush(el[..n], el[n]);
      assert el == el[..n] + [el[n]];
    }
  }

  /** Skipping the zero shares loses nothing: the rows total the shares. */
  lemma {:induction false} AllocationsOfTotal(k: nat, el: seq<Eligible>, shares: seq<int>)
    requires |el| == |shares| && forall x :: 0 <= x < |el| ==> shares[x] >= 0
    ensures Total(ByPayout(AllocationsOf(k, el, shares)), k) == Sum(shares)
  {
    var rows := AllocationsOf(k, el, shares);
    if |el| == 0 {
      assert Column(ByPayout(rows), k) == [];
    } else {
      var n := |el| - 1;
      var front := AllocationsOf(k, el[..n], shares[..n]);
      AllocationsOfTotal(k, el[..n], shares[..n]);
      if shares[n] > 0 {
        assert ByPayout(rows) == ByPayout(front) + [Posting(k, shares[n])];
        TotalPush(ByPayout(front), Posting(k, shares[n]), k);
      } else {
        assert rows == front;
      }
    }
  }

  // ----- storing a payout -----

  /** A request whose purse, if any, belongs to the admin's group. */
  ghost predicate Storable(db: Db, admin: Admin, req: PayoutRequest) {
    && req.amount > 0
    && (req.purse.Some? ==> req.purse.value < |db.purses| && db.purses[req.purse.value].group == admin.group)
  }

  /** A new payout, before any allocation. */
  lemma StoredKeepsTables(db: Db, admin: Admin, req: PayoutRequest)
    requires PayoutsOk(db) && Storable(db, admin, req)
    ensures PayoutsKnown(db.payouts + [NewPayout(admin, req)], db.purses)
    ensures AllocationsKnown(db.allocations, db.payouts + [NewPayout(admin, req)], db.purses)
    ensures Total(ByPayout(db.allocations), |db.payouts|) == 0
  {
    var ps' := db.payouts + [NewPayout(admin, req)];
    forall k | 0 <= k < |ps'| ensures PayoutKnown(ps'[k], db.purses) {
      assert k < |db.payouts| ==> PayoutKnown(db.payouts[k], db.purses);
    }
    forall a | 0 <= a < |db.allocations|
      ensures AllocationKnown(db.allocations[a], ps', db.purses) && db.allocations[a].payout != |db.payouts|
    {
      assert AllocationKnown(db.allocations[a], db.payouts, db.purses);
    }
    SumZero(Column(ByPayout(db.allocations), |db.payouts|));
  }

  lemma StoredKeepsLog(ps: seq<Payout>, es: seq<PayoutEvent>, p: Payout)
    requires PayoutsReplay(ps, es) && p.status.Requested?
    ensures PayoutsReplay(ps + [p], es)
  {
    NoPayoutEvents(es, |ps|);
  }

  /** A new purse-scoped payout is complete as it is stored. */
  lemma DirectKeeps(db: Db, admin: Admin, req: PayoutRequest)
    requires PayoutsOk(db) && Storable(db, admin, req) && req.purse.Some?
    ensures var db' := db.(payouts := db.payouts + [NewPayout(admin, req)]); PayoutsOk(db') && PayoutsProgress(db, db')
  {
    StoredKeepsTables(db, admin, req);
    StoredKeepsLog(db.payouts, db.payoutEvents, NewPayout(admin, req));
  }

  /** A sweep that is stored but not yet allocated changes no purse balance. */
  lemma UnallocatedSweepIsInvisible(db: Db, admin: Admin, req: PayoutRequest, p: nat)
    requires PayoutsOk(db) && req.purse.None?
    ensures AvailableBalance(db.(payouts := db.payouts + [NewPayout(admin, req)]), p) == AvailableBalance(db, p)
  {
    var ps' := db.payouts + [NewPayout(admin, req)];
    assert DirectRows(ps') == DirectRows(db.payouts) + [Posting(0, 0)];
    TotalPush(DirectRows(db.payouts), Posting(0, 0), p);
    forall a | 0 <= a < |db.allocations| ensures AllocationRow(db.allocations[a], ps') == AllocationRow(db.allocations[a], db.payouts) {
      assert AllocationKnown(db.allocations[a], db.payouts, db.purses);
    }
    assert AllocationRows(db.allocations, ps') == AllocationRows(db.allocations, db.payouts);
  }

  lemma {:induction false} EligibleUnchanged(db: Db, db': Db, scan: seq<nat>)
    requires forall p :: AvailableBalance(db', p) == AvailableBalance(db, p)
    requires db'.contributions == db.contributions
    ensures EligibleOf(db', scan) == EligibleOf(db, scan)
  {
    if scan != [] {
      EligibleUnchanged(db, db', scan[..|scan| - 1]);
    }
  }

  /** The eligible purses a sweep of the request sees. */
  lemma SweepSees(db: Db, admin: Admin, req: PayoutRequest, scan: seq<nat>)
    requires PayoutsOk(db) && req.purse.None?
    ensures EligibleOf(db.(payouts := db.payouts + [NewPayout(admin, req)]), scan) == EligibleOf(db, scan)
  {
    var db' := db.(payouts := db.payouts + [NewPayout(admin, req)]);
    forall p: nat ensures AvailableBalance(db', p) == AvailableBalance(db, p) {
      UnallocatedSweepIsInvisible(db, admin, req, p);
    }
    EligibleUnchanged(db, db', scan);
  }

  lemma ByPayoutConcat(a: seq<Allocation>, b: seq<Allocation>, k: nat)
    ensures Total(ByPayout(a + b), k) == Total(ByPayout(a), k) + Total(ByPayout(b), k)
  {
    assert Column(ByPayout(a + b), k) == Column(ByPayout(a), k) + Column(ByPayout(b), k);
    SumConcat(Column(ByPayout(a), k), Column(ByPayout(b), k));
  }

  /** Rows that together make up one whole sweep of a group. */
  ghost predicate CoversSweep(rows: seq<Allocation>, purses: seq<Purse>, group: nat, k: nat, amount: Kobo) {
    && (forall a :: 0 <= a < |rows| ==>
          && rows[a].payout == k && rows[a].amount > 0
          && rows[a].purse < |purses| && purses[rows[a].purse].group == group)
    && Total(ByPayout(rows), k) == amount
  }

  /** The exactness of a sweep, in the state it is requested in: its rows are for
      purses of the group, and total exactly what was swept. */
  lemma SweepCovers(db: Db, group: nat, scan: seq<nat>, k: nat, amount: Kobo)
    requires ContributionsOk(db) && PayoutsOk(db) && IsScan(db, group, scan)
    requires 0 < amount <= GroupBalance(db, group)
    ensures var el := EligibleOf(db, scan);
      && |el| > 0 && Weight(el) > 0
      && CoversSweep(AllocationsOf(k, el, Shares(amount, el)), db.purses, group, k, amount)
  {
    var el := EligibleOf(db, scan);
    SweepHasPayers(db, group, scan, amount);
    SharesExact(amount, el);
    AllocationsOfListed(k, el, Shares(amount, el));
    AllocationsOfTotal(k, el, Shares(amount, el));
    CollectedCoversHolds(db);
    EligibleEntitled(db, scan);
    var rows := AllocationsOf(k, el, Shares(amount, el));
    forall a | 0 <= a < |rows|
      ensures rows[a].purse < |db.purses| && db.purses[rows[a].purse].group == group
    {
      var x :| 0 <= x < |el| && el[x].purse == rows[a].purse;
    }
  }

  lemma CoveringAllocationsKnown(allocs: seq<Allocation>, rows: seq<Allocation>, ps: seq<Payout>, purses: seq<Purse>, p: Payout)
    requires AllocationsKnown(allocs, ps + [p], purses) && p.purse.None?
    requires CoversSweep(rows, purses, p.group, |ps|, p.amount)
    ensures AllocationsKnown(allocs + rows, ps + [p], purses)
  {
  }

  lemma CoveringCovers(allocs: seq<Allocation>, rows: seq<Allocation>, ps: seq<Payout>, purses: seq<Purse>, p: Payout)
    requires SweepsCovered(allocs, ps) && Total(ByPayout(allocs), |ps|) == 0
    requires CoversSweep(rows, purses, p.group, |ps|, p.amount)
    ensures SweepsCovered(allocs + rows, ps + [p])
  {
    forall j | 0 <= j < |ps + [p]| && (ps + [p])[j].purse.None?
      ensures Total(ByPayout(allocs + rows), j) == (ps + [p])[j].amount
    {
      ByPayoutConcat(allocs, rows, j);
      if j < |ps| {
        SumZero(Column(ByPayout(rows), j));
      }
    }
  }

  /** Storing the rows that cover a stored sweep completes it. */
  lemma CoveringKeeps(db: Db, admin: Admin, req: PayoutRequest, rows: seq<Allocation>)
    requires PayoutsOk(db) && req.amount > 0 && req.purse.None?
    requires CoversSweep(rows, db.purses, admin.group, |db.payouts|, req.amount)
    ensures var db' := db.(payouts := db.payouts + [NewPayout(admin, req)], allocations := db.allocations + rows);
      PayoutsOk(db') && PayoutsProgress(db, db')
  {
    var p := NewPayout(admin, req);
    StoredKeepsTables(db, admin, req);
    StoredKeepsLog(db.payouts, db.payoutEvents, p);
    CoveringAllocationsKnown(db.allocations, rows, db.payouts, db.purses, p);
    CoveringCovers(db.allocations, rows, db.payouts, db.purses, p);
  }

  lemma CreateKeeps(db: Db, admin: Admin, req: PayoutRequest, gate: Gate, scan: seq<nat>)
    requires ContributionsOk(db) && PayoutsOk(db) && IsScan(db, admin.group, scan)
    ensures PayoutsOk(CreatePayout(db, admin, req, gate, scan).0)
    ensures PayoutsProgress(db, CreatePayout(db, admin, req, gate, scan).0)
    ensures TouchesOnlyPayouts(db, CreatePayout(db, admin, req, gate, scan).0)
  {
    if CreatePayout(db, admin, req, gate, scan).1.Ok? {
      if req.purse.Some? {
        DirectKeeps(db, admin, req);
      } else {
        SweepSees(db, admin, req, scan);
        SweepCovers(db, admin.group, scan, |db.payouts|, req.amount);
        var el := EligibleOf(db, scan);
        CoveringKeeps(db, admin, req, AllocationsOf(|db.payouts|, el, Shares(req.amount, el)));
      }
    }
  }

  // ----- the rest of the state machine -----

  lemma ApproveKeeps(db: Db, k: nat, userId: nat)
    requires PayoutsOk(db)
    ensures PayoutsOk(Approve(db, k, userId).0) && PayoutsProgress(db, Approve(db, k, userId).0)
    ensures TouchesOnlyPayouts(db, Approve(db, k, userId).0)
  {
    if k < |db.payouts| && db.payouts[k].status.Requested? {
      MoveKeeps(db, k, db.payouts[k].(status := Approved, approvedBy := Some(userId)), PlatformAdminActor, Some(userId));
    }
  }

  lemma RejectKeeps(db: Db, k: nat, userId: nat, reason: string)
    requires PayoutsOk(db)
    ensures PayoutsOk(Reject(db, k, userId, reason).0) && PayoutsProgress(db, Reject(db, k, userId, reason).0)
    ensures TouchesOnlyPayouts(db, Reject(db, k, userId, reason).0)
  {
    if k < |db.payouts| && db.payouts[k].status.Requested? {
      MoveKeeps(db, k, db.payouts[k].(status := Rejected, rejectionReason := Some(reason)), PlatformAdminActor, Some(userId));
    }
  }

  lemma InitiatedKeeps(db: Db, k: nat, ref: Ref)
    requires PayoutsOk(db)
    ensures PayoutsOk(MarkTransferInitiated(db, k, ref).0) && PayoutsProgress(db, MarkTransferInitiated(db, k, ref).0)
    ensures TouchesOnlyPayouts(db, MarkTransferInitiated(db, k, ref).0)
  {
    if k < |db.payouts| && db.payouts[k].status.Approved? {
      MoveKeeps(db, k, db.payouts[k].(status := Processing, transferRef := Some(ref)), PlatformAdminActor, None);
    }
  }

  lemma InitiationFailedKeeps(db: Db, k: nat, reason: string)
    requires PayoutsOk(db)
    ensures PayoutsOk(MarkTransferInitiationFailed(db, k, reason).0)
    ensures PayoutsProgress(db, MarkTransferInitiationFailed(db, k, reason).0)
    ensures TouchesOnlyPayouts(db, MarkTransferInitiationFailed(db, k, reason).0)
  {
    if k < |db.payouts| && db.payouts[k].status.Approved? {
      MoveKeeps(db, k, db.payouts[k].(status := Failed, failureReason := Some(reason)), PlatformAdminActor, None);
    }
  }

  lemma ConfirmTransferKeeps(db: Db, k: nat, success: bool, reason: Option<string>)
    requires PayoutsOk(db) && k < |db.payouts|
    ensures PayoutsOk(ApplyTransferConfirmation(db, k, success, reason).0)
    ensures PayoutsProgress(db, ApplyTransferConfirmation(db, k, success, reason).0)
    ensures TouchesOnlyPayouts(db, ApplyTransferConfirmation(db, k, success, reason).0)
  {
    var p := db.payouts[k];
    if p.status.Processing? {
      MoveKeeps(db, k, if success then p.(status := Completed) else p.(status := Failed, failureReason := reason),
                TransferWebhook, None);
    }
  }
}
