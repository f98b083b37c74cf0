/** What holds in every reachable state and over every run of the platform. */
module RunGuarantees {
  import opened Rows
  import opened Sums
  import opened Contributions
  import opened ContributionLaws
  import opened Payouts
  import opened PayoutLaws
  import opened Platform
  import opened StepFrames

  // ----- reachable states -----

  /** In every reachable state, the purse balances of every group add up to the
      group balance that is computed without them. */
  lemma BalancesAlwaysAgree(db: Db, group: nat)
    requires Reachable(db)
    ensures Sum(PurseBalances(db, group)) == GroupBalance(db, group)
  {
    ReachableInv(db);
    BalancesAgree(db, group);
  }

  /** In every reachable state no invoice reference has been credited twice, each
      credit went to the contribution its invoice was issued for, and every
      contribution has received exactly its credits. */
  lemma CreditedAtMostOnce(db: Db)
    requires Reachable(db)
    ensures forall j, k :: 0 <= j < k < |db.credits| && db.credits[j].ref.Some? ==> db.credits[j].ref != db.credits[k].ref
    ensures forall k :: 0 <= k < |db.credits| && db.credits[k].ref.Some? ==>
      db.credits[k].ref.value in db.invoices && db.invoices[db.credits[k].ref.value].contribution == db.credits[k].contribution
    ensures forall i :: 0 <= i < |db.contributions| ==> db.contributions[i].received == Total(CreditRows(db.credits), i)
  {
    ReachableInv(db);
  }

  /** In every reachable state the invoice a payable contribution holds was
      issued for exactly what it owes now, and was never credited. */
  lemma CachedInvoiceAgrees(db: Db, i: nat)
    requires Reachable(db) && i < |db.contributions|
    requires Unresolved(db.contributions[i]) && db.contributions[i].invoice.Some?
    ensures var r := db.contributions[i].invoice.value;
      && r in db.invoices
      && db.invoices[r] == IssuedInvoice(i, Outstanding(db.contributions[i]))
      && !Credited(db.credits, r)
  {
    ReachableInv(db);
    assert RowAgrees(db.contributions[i], i, db.invoices, db.credits);
  }

  /** The event log of every contribution is a path of allowed edges from pending
      to its current status, and a paid one that no rep touched was paid exactly. */
  lemma ContributionLogReplays(db: Db, i: nat)
    requires Reachable(db) && i < |db.contributions|
    ensures StatusAfter(db.contributionEvents, i) == Some(db.contributions[i].status)
    ensures db.contributions[i].status.Paid? && LastActor(db.contributionEvents, i) != Some(RepManual) ==>
      db.contributions[i].received == db.contributions[i].expected
  {
    ReachableInv(db);
  }

  /** The same for payouts, none of which ever has more than three events. */
  lemma PayoutLogReplays(db: Db, k: nat)
    requires Reachable(db) && k < |db.payouts|
    ensures PayoutStatusAfter(db.payoutEvents, k) == Some(db.payouts[k].status)
    ensures EventCount(db.payoutEvents, k) <= 3
    ensures EventCount(db.payoutEvents, k) == 3 ==> Terminal(db.payouts[k].status)
  {
    ReachableInv(db);
    assert CountFits(db.payouts[k].status, EventCount(db.payoutEvents, k));
  }

  /** The audit log, restricted to transitions of one kind, repeats that kind's
      event table edge by edge with the actors mapped. */
  lemma AuditRepeatsEvents(db: Db)
    requires Reachable(db)
    ensures ContributionAudit(db.audit) == AuditOfEvents(db.contributionEvents)
    ensures PayoutAudit(db.audit) == AuditOfPayoutEvents(db.payoutEvents)
  {
    ReachableInv(db);
  }

  lemma {:induction false} AuditOfEventAt(es: seq<ContributionEvent>, j: nat)
    requires j < |es|
    ensures |AuditOfEvents(es)| == |es|
    ensures AuditOfEvents(es)[j] == ContributionTransition(es[j].contribution, es[j].from, es[j].to,
      match es[j].actor
      case Webhook => ByWebhook
      case ReconciliationJob => ByReconciliationJob
      case RepManual => ByGroupAdmin,
      es[j].actorId)
  {
    if |es| > 1 {
      AuditOfEventAt(es[..|es| - 1], if j < |es| - 1 then j else 0);
    }
  }

  lemma {:induction false} AuditOfPayoutEventAt(es: seq<PayoutEvent>, j: nat)
    requires j < |es|
    ensures |AuditOfPayoutEvents(es)| == |es|
    ensures AuditOfPayoutEvents(es)[j] == PayoutTransition(es[j].payout, es[j].from, es[j].to,
      match es[j].actor
      case GroupAdminActor => ByGroupAdmin
      case PlatformAdminActor => ByPlatformAdmin
      case TransferWebhook => ByWebhook,
      es[j].actorId)
  {
    if |es| > 1 {
      AuditOfPayoutEventAt(es[..|es| - 1], if j < |es| - 1 then j else 0);
    }
  }

  /** In every reachable state, the j-th audited transition of a kind is the j-th
      event of that kind, under the actor that the audit log has for its actor. */
  lemma AuditNamesActors(db: Db, j: nat)
    requires Reachable(db)
    ensures |ContributionAudit(db.audit)| == |db.contributionEvents|
    ensures |PayoutAudit(db.audit)| == |db.payoutEvents|
    ensures j < |db.contributionEvents| ==>
      var e := db.contributionEvents[j];
      ContributionAudit(db.audit)[j] == ContributionTransition(e.contribution, e.from, e.to,
        if e.actor == Webhook then ByWebhook else if e.actor == ReconciliationJob then ByReconciliationJob else ByGroupAdmin,
        e.actorId)
    ensures j < |db.payoutEvents| ==>
      var e := db.payoutEvents[j];
      PayoutAudit(db.audit)[j] == PayoutTransition(e.payout, e.from, e.to,
        if e.actor == TransferWebhook then ByWebhook else if e.actor == PlatformAdminActor then ByPlatformAdmin else ByGroupAdmin,
        e.actorId)
  {
    hide Reachable;
    AuditRepeatsEvents(db);
    if db.contributionEvents != [] {
      AuditOfEventAt(db.contributionEvents, if j < |db.contributionEvents| then j else 0);
    }
    if db.payoutEvents != [] {
      AuditOfPayoutEventAt(db.payoutEvents, if j < |db.payoutEvents| then j else 0);
    }
  }

  /** Delivering a provider event id again changes nothing at all. */
  lemma DuplicateDeliveryIsInert(db: Db, id: string, first: Payload, second: Payload)
    ensures var once := Apply(db, Deliver(id, first)); Apply(once, Deliver(id, second)) == once
  {
  }

  // ----- who can be invoiced -----

  /** The purse takes money, and the contribution owes some that no live invoice covers. */
  predicate Invoiceable(db: Db, i: nat, now: Time) {
    && i < |db.contributions|
    && var c := db.contributions[i];
    && c.purse < |db.purses| && db.purses[c.purse].status.Open? && now < db.purses[c.purse].deadline
    && Unresolved(c) && !HasLiveInvoice(c, now)
  }

  /** Over all steps of the platform, an invoice is issued exactly when one is
      asked for, the provider answers, and the contribution is invoiceable; it
      is for what the contribution owes, which is positive only if less than
      expected was received. In particular none is issued while a
      purse is closed or past its deadline, or while another one is live. */
  lemma InvoiceIssuedIff(db: Db, step: Step, r: Ref)
    requires Admissible(db, step) && r !in db.invoices
    ensures r in Apply(db, step).invoices <==>
      && step.RequestInvoice? && Invoiceable(db, step.contribution, step.now)
      && step.answer.Some? && step.answer.value.ref == r
    ensures r in Apply(db, step).invoices ==>
      && Apply(db, step).invoices[r] == IssuedInvoice(step.contribution, Outstanding(db.contributions[step.contribution]))
      && (Apply(db, step).invoices[r].amount > 0 <==>
           db.contributions[step.contribution].received < db.contributions[step.contribution].expected)
  {
    if step.RequestInvoice? {
      AskedInvoiceIff(db, step, r);
    } else {
      hide Apply;
      StepFrame(db, step);
    }
  }

  lemma AskedInvoiceIff(db: Db, step: Step, r: Ref)
    requires step.RequestInvoice? && r !in db.invoices
    ensures r in Apply(db, step).invoices <==>
      Invoiceable(db, step.contribution, step.now) && step.answer.Some? && step.answer.value.ref == r
    ensures r in Apply(db, step).invoices ==>
      Apply(db, step).invoices[r] == IssuedInvoice(step.contribution, Outstanding(db.contributions[step.contribution]))
  {
    hide ExpireIfNeeded, InvoicedRow, Transition, RecordInvoice;
    if step.contribution < |db.contributions| {
      ExpiryKeepsInvoicing(db, step.contribution, step.now);
      if step.answer.Some? {
        RecordingIssues(ExpireIfNeeded(db, step.contribution, step.now), step.contribution, step.answer.value, step.fee, step.now);
      }
    }
  }

  lemma ExpiryKeepsInvoicing(db: Db, i: nat, now: Time)
    requires i < |db.contributions|
    ensures var db1 := ExpireIfNeeded(db, i, now);
      && db1.purses == db.purses && db1.invoices == db.invoices && |db1.contributions| == |db.contributions|
      && db1.contributions[i].purse == db.contributions[i].purse
      && (Unresolved(db1.contributions[i]) <==> Unresolved(db.contributions[i]))
      && (HasLiveInvoice(db1.contributions[i], now) <==> HasLiveInvoice(db.contributions[i], now))
      && Outstanding(db1.contributions[i]) == Outstanding(db.contributions[i])
  {
  }

  lemma RecordingIssues(db: Db, i: nat, inv: ProviderInvoice, fee: Option<nat>, now: Time)
    requires i < |db.contributions|
    ensures RecordInvoice(db, i, inv, fee, now).invoices ==
      db.invoices[inv.ref := IssuedInvoice(i, Outstanding(db.contributions[i]))]
  {
  }

  // ----- over a run -----

  lemma CollectedMonotone(db: Db, db': Db, p: nat)
    requires Inv(db) && Inv(db') && Progress(db, db')
    ensures CollectedTotal(db, p) <= CollectedTotal(db', p)
  {
    forall i | 0 <= i < |db'.contributions| ensures db'.contributions[i].received >= 0 {
      TotalNonNegative(CreditRows(db'.credits), i);
    }
    SumExtends(Column(PaidRows(db.contributions), p), Column(PaidRows(db'.contributions), p));
  }

  /** PAID and PAID_MANUAL are final, row and all; no purse's collected total ever
      goes down; a finished payout stays as it is. */
  lemma SettledIsFinal(db: Db, steps: seq<Step>)
    requires Reachable(db) && ValidRun(db, steps)
    ensures var db' := Run(db, steps);
      && |db.contributions| <= |db'.contributions|
      && |db.payouts| <= |db'.payouts|
      && (forall i :: 0 <= i < |db.contributions| && Settled(db.contributions[i]) ==>
            db'.contributions[i] == db.contributions[i])
      && (forall k :: 0 <= k < |db.payouts| && Terminal(db.payouts[k].status) ==> db'.payouts[k] == db.payouts[k])
      && (forall p: nat :: CollectedTotal(db, p) <= CollectedTotal(db', p))
  {
    hide Inv, CollectedTotal;
    ReachableInv(db);
    RunKeeps(db, steps);
    forall p: nat ensures CollectedTotal(db, p) <= CollectedTotal(Run(db, steps), p) {
      CollectedMonotone(db, Run(db, steps), p);
    }
  }

  // ----- what a balance can do between requests -----

  /** Between requests money only comes in, and refused or failed payouts give
      back both their amount and their allocations: no balance falls. */
  lemma BalancesRise(db: Db, db': Db)
    requires Inv(db) && Inv(db') && Progress(db, db') && NothingRequested(db, db')
    ensures forall p: nat :: AvailableBalance(db, p) <= AvailableBalance(db', p)
    ensures forall g: nat :: GroupBalance(db, g) <= GroupBalance(db', g)
  {
    forall k | 0 <= k < |db.payouts|
      ensures db.payouts[k].amount > 0 && (IsOutstanding(db'.payouts[k].status) ==> IsOutstanding(db.payouts[k].status))
      ensures db'.payouts[k].purse == db.payouts[k].purse && db'.payouts[k].group == db.payouts[k].group
    {
      assert PayoutKnown(db.payouts[k], db.purses);
    }
    forall p: nat ensures AvailableBalance(db, p) <= AvailableBalance(db', p) {
      CollectedMonotone(db, db', p);
      SumMonotone(Column(DirectRows(db'.payouts), p), Column(DirectRows(db.payouts), p));
      AllocatedFalls(db, db', p);
    }
    forall g: nat ensures GroupBalance(db, g) <= GroupBalance(db', g) {
      SumMonotone(Column(GroupRows(db'.payouts), g), Column(GroupRows(db.payouts), g));
      GroupCollectedRises(db, db', g);
    }
  }

  lemma AllocatedFalls(db: Db, db': Db, p: nat)
    requires Inv(db) && Progress(db, db') && NothingRequested(db, db')
    ensures AllocatedTotal(db', p) <= AllocatedTotal(db, p)
  {
    forall a | 0 <= a < |db.allocations|
      ensures AllocationRow(db.allocations[a], db'.payouts).amount <= AllocationRow(db.allocations[a], db.payouts).amount
    {
      assert AllocationKnown(db.allocations[a], db.payouts, db.purses);
      assert db'.payouts[db.allocations[a].payout].amount == db.payouts[db.allocations[a].payout].amount;
    }
    SumMonotone(Column(AllocationRows(db.allocations, db'.payouts), p), Column(AllocationRows(db.allocations, db.payouts), p));
  }

  lemma GroupCollectedRises(db: Db, db': Db, g: nat)
    requires Inv(db) && Inv(db') && Progress(db, db')
    ensures Sum(Masked(PaidRows(db.contributions), Members(db.purses, g))) <=
      Sum(Masked(PaidRows(db'.contributions), Members(db'.purses, g)))
  {
    forall i | 0 <= i < |db'.contributions| ensures db'.contributions[i].received >= 0 {
      TotalNonNegative(CreditRows(db'.credits), i);
    }
    SumExtends(Masked(PaidRows(db.contributions), Members(db.purses, g)),
               Masked(PaidRows(db'.contributions), Members(db'.purses, g)));
  }

  /** An accepted request takes exactly its amount from the group's balance, and
      from no other group's. */
  lemma RequestEffectOnGroup(db: Db, admin: Admin, req: PayoutRequest, gate: Gate, scan: seq<nat>, g: nat)
    requires CreatePayout(db, admin, req, gate, scan).1.Ok?
    ensures GroupBalance(CreatePayout(db, admin, req, gate, scan).0, g) ==
      GroupBalance(db, g) - if g == admin.group then req.amount else 0
  {
    var ps' := db.payouts + [NewPayout(admin, req)];
    assert GroupRows(ps') == GroupRows(db.payouts) + [Posting(admin.group, req.amount)];
    TotalPush(GroupRows(db.payouts), Posting(admin.group, req.amount), g);
  }

  /** An accepted purse-scoped request takes exactly its amount from that purse. */
  lemma DirectRequestEffect(db: Db, admin: Admin, req: PayoutRequest, gate: Gate, scan: seq<nat>, p: nat)
    requires PayoutsOk(db) && req.purse.Some?
    requires CreatePayout(db, admin, req, gate, scan).1.Ok?
    ensures AvailableBalance(CreatePayout(db, admin, req, gate, scan).0, p) ==
      AvailableBalance(db, p) - if req.purse.value == p then req.amount else 0
  {
    var ps' := db.payouts + [NewPayout(admin, req)];
    assert DirectRows(ps') == DirectRows(db.payouts) + [Posting(req.purse.value, req.amount)];
    TotalPush(DirectRows(db.payouts), Posting(req.purse.value, req.amount), p);
    forall a | 0 <= a < |db.allocations|
      ensures AllocationRow(db.allocations[a], ps') == AllocationRow(db.allocations[a], db.payouts)
    {
      assert AllocationKnown(db.allocations[a], db.payouts, db.purses);
    }
    assert AllocationRows(db.allocations, ps') == AllocationRows(db.allocations, db.payouts);
  }

  // ----- no overdraft -----

  ghost predicate PursesSolvent(db: Db) {
    forall p: nat :: AvailableBalance(db, p) >= 0
  }

  ghost predicate GroupsSolvent(db: Db) {
    forall g: nat :: GroupBalance(db, g) >= 0
  }

  predicate OnlyDirect(steps: seq<Step>) {
    forall x :: 0 <= x < |steps| && steps[x].RequestPayout? ==> steps[x].req.purse.Some?
  }

  predicate OnlySweeps(steps: seq<Step>) {
    forall x :: 0 <= x < |steps| && steps[x].RequestPayout? ==> steps[x].req.purse.None?
  }

  lemma RefusedChangesNothing(db: Db, admin: Admin, req: PayoutRequest, gate: Gate, scan: seq<nat>)
    ensures CreatePayout(db, admin, req, gate, scan).1.Err? ==> CreatePayout(db, admin, req, gate, scan).0 == db
  {
  }

  lemma AcceptedIsAffordable(db: Db, admin: Admin, req: PayoutRequest, gate: Gate, scan: seq<nat>)
    requires req.purse.Some? && CreatePayout(db, admin, req, gate, scan).1.Ok?
    ensures req.amount <= AvailableBalance(db, req.purse.value)
  {
  }

  lemma DirectRequestKeepsSolvent(db: Db, admin: Admin, req: PayoutRequest, gate: Gate, scan: seq<nat>)
    requires PayoutsOk(db) && PursesSolvent(db) && req.purse.Some?
    ensures PursesSolvent(CreatePayout(db, admin, req, gate, scan).0)
  {
    hide PayoutsOk, CreatePayout, AvailableBalance;
    var (db', result) := CreatePayout(db, admin, req, gate, scan);
    RefusedChangesNothing(db, admin, req, gate, scan);
    if result.Ok? {
      AcceptedIsAffordable(db, admin, req, gate, scan);
      forall p: nat ensures AvailableBalance(db', p) >= 0 {
        DirectRequestEffect(db, admin, req, gate, scan, p);
      }
    }
  }

  lemma SweepRequestKeepsSolvent(db: Db, admin: Admin, req: PayoutRequest, gate: Gate, scan: seq<nat>)
    requires GroupsSolvent(db) && req.purse.None?
    ensures GroupsSolvent(CreatePayout(db, admin, req, gate, scan).0)
  {
    var (db', result) := CreatePayout(db, admin, req, gate, scan);
    if result.Ok? {
      forall g: nat ensures GroupBalance(db', g) >= 0 {
        RequestEffectOnGroup(db, admin, req, gate, scan, g);
      }
    }
  }

  /** Every step but a request raises balances, or leaves them. */
  lemma OtherStepsRaise(db: Db, step: Step)
    requires Inv(db) && Admissible(db, step) && !step.RequestPayout?
    ensures forall p: nat :: AvailableBalance(db, p) <= AvailableBalance(Apply(db, step), p)
    ensures forall g: nat :: GroupBalance(db, g) <= GroupBalance(Apply(db, step), g)
  {
    hide Inv, Progress, Apply, AvailableBalance, GroupBalance;
    StepKeeps(db, step);
    StepFrame(db, step);
    BalancesRise(db, Apply(db, step));
  }

  lemma RaisedStaysSolvent(db: Db, db': Db)
    requires forall p: nat :: AvailableBalance(db, p) <= AvailableBalance(db', p)
    requires forall g: nat :: GroupBalance(db, g) <= GroupBalance(db', g)
    ensures PursesSolvent(db) ==> PursesSolvent(db')
    ensures GroupsSolvent(db) ==> GroupsSolvent(db')
  {
  }

  lemma DirectStepKeepsSolvent(db: Db, step: Step)
    requires Inv(db) && Admissible(db, step) && PursesSolvent(db)
    requires step.RequestPayout? ==> step.req.purse.Some?
    ensures PursesSolvent(Apply(db, step))
  {
    hide Inv, PursesSolvent, GroupsSolvent;
    if step.RequestPayout? {
      InvParts(db);
      DirectRequestKeepsSolvent(db, step.admin, step.req, step.gate, step.scan);
    } else {
      OtherStepsRaise(db, step);
      RaisedStaysSolvent(db, Apply(db, step));
    }
  }

  lemma SweepStepKeepsSolvent(db: Db, step: Step)
    requires Inv(db) && Admissible(db, step) && GroupsSolvent(db)
    requires step.RequestPayout? ==> step.req.purse.None?
    ensures GroupsSolvent(Apply(db, step))
  {
    hide Inv, PursesSolvent, GroupsSolvent;
    if step.RequestPayout? {
      SweepRequestKeepsSolvent(db, step.admin, step.req, step.gate, step.scan);
    } else {
      OtherStepsRaise(db, step);
      RaisedStaysSolvent(db, Apply(db, step));
    }
  }

  lemma {:induction false} DirectRunSolvent(db: Db, steps: seq<Step>)
    requires Inv(db) && PursesSolvent(db) && ValidRun(db, steps) && OnlyDirect(steps)
    ensures PursesSolvent(Run(db, steps))
  {
    hide Inv, PursesSolvent, Apply, Admissible;
    if steps != [] {
      var front := steps[..|steps| - 1];
      DirectRunSolvent(db, front);
      RunKeeps(db, front);
      DirectStepKeepsSolvent(Run(db, front), steps[|steps| - 1]);
    }
  }

  lemma {:induction false} SweepRunSolvent(db: Db, steps: seq<Step>)
    requires Inv(db) && GroupsSolvent(db) && ValidRun(db, steps) && OnlySweeps(steps)
    ensures GroupsSolvent(Run(db, steps))
  {
    hide Inv, GroupsSolvent, Apply, Admissible;
    if steps != [] {
      var front := steps[..|steps| - 1];
      SweepRunSolvent(db, front);
      RunKeeps(db, front);
      SweepStepKeepsSolvent(Run(db, front), steps[|steps| - 1]);
    }
  }

  lemma EmptySolvent(groups: nat)
    ensures Inv(EmptyDb(groups)) && PursesSolvent(EmptyDb(groups)) && GroupsSolvent(EmptyDb(groups))
  {
  }

  lemma SolventPursesMakeSolventGroups(db: Db)
    requires PayoutsOk(db) && PursesSolvent(db)
    ensures GroupsSolvent(db)
  {
    forall g: nat ensures GroupBalance(db, g) >= 0 {
      BalancesAgree(db, g);
      SumWithinZero(PurseBalances(db, g));
    }
  }

  lemma SumWithinZero(a: seq<int>)
    requires forall i :: 0 <= i < |a| ==> a[i] >= 0
    ensures Sum(a) >= 0
  {
  }

  /** The approval re-check refuses a requested payout exactly when the balance it
      is drawn on has gone negative. */
  lemma ApprovalRefusedIffOverdrawn(db: Db, k: nat, userId: nat)
    requires k < |db.payouts| && db.payouts[k].status.Requested?
    ensures Approve(db, k, userId).1 == Err(InsufficientBalance) <==>
      (if db.payouts[k].purse.Some? then AvailableBalance(db, db.payouts[k].purse.value)
       else GroupBalance(db, db.payouts[k].group)) < 0
  {
  }

  /** A run whose payouts are all purse-scoped never overdraws a purse or a group,
      and no approval is ever refused for lack of money. */
  lemma NoOverdraftWithDirectPayouts(groups: nat, steps: seq<Step>)
    requires ValidRun(EmptyDb(groups), steps) && OnlyDirect(steps)
    ensures var db := Run(EmptyDb(groups), steps);
      && PursesSolvent(db) && GroupsSolvent(db)
      && forall k: nat, userId: nat :: Approve(db, k, userId).1 != Err(InsufficientBalance)
  {
    hide Inv, Apply, Admissible;
    var db := Run(EmptyDb(groups), steps);
    EmptySolvent(groups);
    DirectRunSolvent(EmptyDb(groups), steps);
    RunKeeps(EmptyDb(groups), steps);
    InvParts(db);
    SolventPursesMakeSolventGroups(db);
    forall k: nat, userId: nat ensures Approve(db, k, userId).1 != Err(InsufficientBalance) {
      if k < |db.payouts| && db.payouts[k].status.Requested? {
        ApprovalRefusedIffOverdrawn(db, k, userId);
      }
    }
  }

  ghost predicate AllSweeps(ps: seq<Payout>) {
    forall k :: 0 <= k < |ps| ==> ps[k].purse.None?
  }

  lemma SweepAddsSweep(db: Db, step: Step)
    requires AllSweeps(db.payouts) && step.RequestPayout? && step.req.purse.None?
    ensures AllSweeps(Apply(db, step).payouts)
  {
  }

  lemma OtherAddsNoPayout(db: Db, step: Step)
    requires Inv(db) && Admissible(db, step) && AllSweeps(db.payouts) && !step.RequestPayout?
    ensures AllSweeps(Apply(db, step).payouts)
  {
    hide Inv, Apply;
    StepKeeps(db, step);
    StepFrame(db, step);
  }

  lemma StepAddsOnlySweeps(db: Db, step: Step)
    requires Inv(db) && Admissible(db, step) && AllSweeps(db.payouts)
    requires step.RequestPayout? ==> step.req.purse.None?
    ensures AllSweeps(Apply(db, step).payouts)
  {
    if step.RequestPayout? {
      SweepAddsSweep(db, step);
    } else {
      OtherAddsNoPayout(db, step);
    }
  }

  lemma {:induction false} RunAddsOnlySweeps(db: Db, steps: seq<Step>)
    requires Inv(db) && AllSweeps(db.payouts) && ValidRun(db, steps) && OnlySweeps(steps)
    ensures AllSweeps(Run(db, steps).payouts)
  {
    if steps != [] {
      var front := steps[..|steps| - 1];
      RunAddsOnlySweeps(db, front);
      RunKeeps(db, front);
      StepAddsOnlySweeps(Run(db, front), steps[|steps| - 1]);
    }
  }

  /** A run whose payouts are all sweeps never overdraws a group, and no approval
      is ever refused for lack of money. */
  lemma NoOverdraftWithSweeps(groups: nat, steps: seq<Step>)
    requires ValidRun(EmptyDb(groups), steps) && OnlySweeps(steps)
    ensures var db := Run(EmptyDb(groups), steps);
      && GroupsSolvent(db)
      && forall k: nat, userId: nat :: Approve(db, k, userId).1 != Err(InsufficientBalance)
  {
    hide Inv, Apply, Admissible;
    var db := Run(EmptyDb(groups), steps);
    EmptySolvent(groups);
    SweepRunSolvent(EmptyDb(groups), steps);
    RunAddsOnlySweeps(EmptyDb(groups), steps);
    forall k: nat, userId: nat ensures Approve(db, k, userId).1 != Err(InsufficientBalance) {
      if k < |db.payouts| && db.payouts[k].status.Requested? {
        ApprovalRefusedIffOverdrawn(db, k, userId);
      }
    }
  }
}
