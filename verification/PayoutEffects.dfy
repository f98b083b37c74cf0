/** What each step of a payout does to the payout itself, to every balance, and
    why a payout is in the state it is in: stated by status, by payload and by
    amount, without the ledger's own notion of an outstanding payout. */
module PayoutEffects {
  import opened Rows
  import opened Sums
  import opened Payouts
  import opened PayoutLaws
  import opened Platform
  import opened StepFrames
  import opened RunGuarantees
  import Webhooks

  // ----- what a payout takes -----

  /** The allocations of payout k on purse p. */
  function AllocatedColumn(allocs: seq<Allocation>, k: nat, p: nat): (r: seq<int>)
    ensures |r| == |allocs|
    ensures forall a :: 0 <= a < |allocs| ==>
      r[a] == if allocs[a].payout == k && allocs[a].purse == p then allocs[a].amount else 0
  {
    seq(|allocs|, a requires 0 <= a < |allocs| =>
      if allocs[a].payout == k && allocs[a].purse == p then allocs[a].amount else 0)
  }

  /** What payout k takes from purse p: its amount if it is scoped to p, and its
      allocations on p if it is a sweep. */
  function TakenFrom(db: Db, k: nat, p: nat): Kobo
    requires k < |db.payouts|
  {
    match db.payouts[k].purse
    case Some(purse) => if purse == p then db.payouts[k].amount else 0
    case None => Sum(AllocatedColumn(db.allocations, k, p))
  }

  ghost predicate MovesNoMoney(db: Db, db': Db) {
    && (forall p: nat :: AvailableBalance(db', p) == AvailableBalance(db, p))
    && (forall g: nat :: GroupBalance(db', g) == GroupBalance(db, g))
  }

  /** Every purse gets back what payout k took from it, and its group the whole amount. */
  ghost predicate GivesBack(db: Db, db': Db, k: nat)
    requires k < |db.payouts|
  {
    && (forall p: nat :: AvailableBalance(db', p) == AvailableBalance(db, p) + TakenFrom(db, k, p))
    && (forall g: nat :: GroupBalance(db', g) ==
          GroupBalance(db, g) + if g == db.payouts[k].group then db.payouts[k].amount else 0)
  }

  function Counted(s: PayoutStatus): int {
    if IsOutstanding(s) then 1 else 0
  }

  // ----- changing one status moves the balances by what the payout takes -----

  lemma DirectRestatus(db: Db, k: nat, q: Payout, p: nat)
    requires k < |db.payouts| && SameTerms(q, db.payouts[k]) && q.purse.Some?
    ensures Total(DirectRows(db.payouts[k := q]), p) ==
      DirectTotal(db, p) + (Counted(q.status) - Counted(db.payouts[k].status)) * TakenFrom(db, k, p)
  {
    var before, after := Column(DirectRows(db.payouts), p), Column(DirectRows(db.payouts[k := q]), p);
    assert after == before[k := after[k]];
    SumUpdate(before, k, after[k]);
  }

  lemma AllocatedRestatus(db: Db, k: nat, q: Payout, p: nat)
    requires k < |db.payouts| && q.purse.None?
    ensures Total(AllocationRows(db.allocations, db.payouts[k := q]), p) ==
      AllocatedTotal(db, p) + (Counted(q.status) - Counted(db.payouts[k].status)) * Sum(AllocatedColumn(db.allocations, k, p))
  {
    var before := Column(AllocationRows(db.allocations, db.payouts), p);
    var after := Column(AllocationRows(db.allocations, db.payouts[k := q]), p);
    var taken, change := AllocatedColumn(db.allocations, k, p), Counted(q.status) - Counted(db.payouts[k].status);
    var moved := seq(|taken|, a requires 0 <= a < |taken| => change * taken[a]);
    SumScales(taken, change, moved);
    SumAdds(before, moved, after);
  }

  lemma AllocatedUntouched(db: Db, k: nat, q: Payout, p: nat)
    requires PayoutsOk(db) && k < |db.payouts| && db.payouts[k].purse.Some?
    ensures Total(AllocationRows(db.allocations, db.payouts[k := q]), p) == AllocatedTotal(db, p)
  {
    forall a | 0 <= a < |db.allocations|
      ensures AllocationRow(db.allocations[a], db.payouts[k := q]) == AllocationRow(db.allocations[a], db.payouts)
    {
      assert AllocationKnown(db.allocations[a], db.payouts, db.purses);
    }
    assert AllocationRows(db.allocations, db.payouts[k := q]) == AllocationRows(db.allocations, db.payouts);
  }

  lemma PurseRestatus(db: Db, db': Db, k: nat, q: Payout, p: nat)
    requires PayoutsOk(db) && k < |db.payouts| && SameTerms(q, db.payouts[k])
    requires db'.contributions == db.contributions && db'.allocations == db.allocations && db'.payouts == db.payouts[k := q]
    ensures AvailableBalance(db', p) ==
      AvailableBalance(db, p) + (Counted(db.payouts[k].status) - Counted(q.status)) * TakenFrom(db, k, p)
  {
    if q.purse.Some? {
      DirectRestatus(db, k, q, p);
      AllocatedUntouched(db, k, q, p);
    } else {
      assert DirectRows(db'.payouts) == DirectRows(db.payouts);
      AllocatedRestatus(db, k, q, p);
    }
  }

  lemma GroupRestatus(db: Db, db': Db, k: nat, q: Payout, g: nat)
    requires k < |db.payouts| && SameTerms(q, db.payouts[k])
    requires db'.contributions == db.contributions && db'.purses == db.purses && db'.payouts == db.payouts[k := q]
    ensures GroupBalance(db', g) == GroupBalance(db, g) +
      (Counted(db.payouts[k].status) - Counted(q.status)) * if g == db.payouts[k].group then db.payouts[k].amount else 0
  {
    var before, after := Column(GroupRows(db.payouts), g), Column(GroupRows(db'.payouts), g);
    assert after == before[k := after[k]];
    SumUpdate(before, k, after[k]);
  }

  // ----- the outcome of every step -----

  /** Payout k, and no other, becomes q; nothing but the logs changes besides. */
  ghost predicate Becomes(db: Db, db': Db, k: nat, q: Payout) {
    && k < |db.payouts| && db'.payouts == db.payouts[k := q]
    && db'.allocations == db.allocations && db'.contributions == db.contributions && db'.purses == db.purses
  }

  lemma BecomesMoves(db: Db, db': Db, k: nat, q: Payout)
    requires PayoutsOk(db) && Becomes(db, db', k, q) && SameTerms(q, db.payouts[k])
    ensures Counted(q.status) == Counted(db.payouts[k].status) ==> MovesNoMoney(db, db')
    ensures Counted(q.status) == 0 && Counted(db.payouts[k].status) == 1 ==> GivesBack(db, db', k)
  {
    hide AvailableBalance, GroupBalance, PayoutsOk, TakenFrom;
    forall p: nat
      ensures AvailableBalance(db', p) ==
        AvailableBalance(db, p) + (Counted(db.payouts[k].status) - Counted(q.status)) * TakenFrom(db, k, p)
    {
      PurseRestatus(db, db', k, q, p);
    }
    forall g: nat
      ensures GroupBalance(db', g) == GroupBalance(db, g) +
        (Counted(db.payouts[k].status) - Counted(q.status)) * if g == db.payouts[k].group then db.payouts[k].amount else 0
    {
      GroupRestatus(db, db', k, q, g);
    }
  }

  predicate In(db: Db, k: nat, s: PayoutStatus) {
    k < |db.payouts| && db.payouts[k].status == s
  }

  /** An approval goes through for a requested payout whose balance is not
      negative; it names the approver and moves no money. */
  lemma ApprovalOutcome(db: Db, k: nat, userId: nat)
    requires PayoutsOk(db)
    ensures var db' := Apply(db, ApprovePayout(k, userId));
      if In(db, k, Requested) && 0 <= (if db.payouts[k].purse.Some? then AvailableBalance(db, db.payouts[k].purse.value)
                                       else GroupBalance(db, db.payouts[k].group))
      then Becomes(db, db', k, db.payouts[k].(status := Approved, approvedBy := Some(userId))) && MovesNoMoney(db, db')
      else db' == db
  {
    hide AvailableBalance, GroupBalance, PayoutsOk;
    if In(db, k, Requested) {
      var db' := Apply(db, ApprovePayout(k, userId));
      if db' != db {
        BecomesMoves(db, db', k, db.payouts[k].(status := Approved, approvedBy := Some(userId)));
      }
    }
  }

  /** A rejection goes through for a requested payout, and gives its money back. */
  lemma RejectionOutcome(db: Db, k: nat, userId: nat, reason: string)
    requires PayoutsOk(db)
    ensures var db' := Apply(db, RejectPayout(k, userId, reason));
      if In(db, k, Requested)
      then Becomes(db, db', k, db.payouts[k].(status := Rejected, rejectionReason := Some(reason))) && GivesBack(db, db', k)
      else db' == db
  {
    hide AvailableBalance, GroupBalance, PayoutsOk;
    if In(db, k, Requested) {
      BecomesMoves(db, Apply(db, RejectPayout(k, userId, reason)), k,
                   db.payouts[k].(status := Rejected, rejectionReason := Some(reason)));
    }
  }

  /** A started transfer takes an approved payout to processing, and moves no money. */
  lemma TransferStartOutcome(db: Db, k: nat, ref: Ref)
    requires PayoutsOk(db)
    ensures var db' := Apply(db, StartTransfer(k, ref));
      if In(db, k, Approved)
      then Becomes(db, db', k, db.payouts[k].(status := Processing, transferRef := Some(ref))) && MovesNoMoney(db, db')
      else db' == db
  {
    hide AvailableBalance, GroupBalance, PayoutsOk;
    if In(db, k, Approved) {
      BecomesMoves(db, Apply(db, StartTransfer(k, ref)), k,
                   db.payouts[k].(status := Processing, transferRef := Some(ref)));
    }
  }

  /** A transfer that could not start fails an approved payout, and gives its money back. */
  lemma TransferStartFailureOutcome(db: Db, k: nat, reason: string)
    requires PayoutsOk(db)
    ensures var db' := Apply(db, FailTransferStart(k, reason));
      if In(db, k, Approved)
      then Becomes(db, db', k, db.payouts[k].(status := Failed, failureReason := Some(reason))) && GivesBack(db, db', k)
      else db' == db
  {
    hide AvailableBalance, GroupBalance, PayoutsOk;
    if In(db, k, Approved) {
      BecomesMoves(db, Apply(db, FailTransferStart(k, reason)), k,
                   db.payouts[k].(status := Failed, failureReason := Some(reason)));
    }
  }

  // ----- transfer notifications -----

  /** Payout k is the one that was sent under this reference. */
  ghost predicate SentAs(db: Db, k: nat, ref: Ref) {
    && k < |db.payouts| && db.payouts[k].transferRef == Some(ref)
    && forall j :: 0 <= j < |db.payouts| && db.payouts[j].transferRef == Some(ref) ==> j == k
  }

  predicate Ambiguous(db: Db, j: nat, k: nat, ref: Ref) {
    j < k < |db.payouts| && db.payouts[j].transferRef == Some(ref) && db.payouts[k].transferRef == Some(ref)
  }

  ghost predicate NothingSentAs(db: Db, ref: Ref) {
    forall j :: 0 <= j < |db.payouts| ==> db.payouts[j].transferRef != Some(ref)
  }

  lemma MatchesAscend(ps: seq<Payout>, ref: Ref)
    ensures var found := Webhooks.MatchingPayouts(ps, ref); |found| > 1 ==> found[0] < found[1]
  {
  }

  lemma OneMatch(db: Db, k: nat, ref: Ref)
    requires SentAs(db, k, ref)
    ensures Webhooks.MatchingPayouts(db.payouts, ref) == [k]
  {
    var found := Webhooks.MatchingPayouts(db.payouts, ref);
    MatchesAscend(db.payouts, ref);
    assert k in found;
  }

  /** A notification about the one processing payout that was sent under its
      reference completes it if and only if it reports success, and otherwise
      fails it with the reported reason; only then does money come back. */
  lemma TransferOutcome(db: Db, e: nat, k: nat)
    requires PayoutsOk(db) && e < |db.webhookEvents| && db.webhookEvents[e].payload.Transfer?
    requires SentAs(db, k, db.webhookEvents[e].payload.reference) && In(db, k, Processing)
    ensures var payload, db' := db.webhookEvents[e].payload, Apply(db, ProcessTransfer(e));
      && Becomes(db, db', k, if payload.success then db.payouts[k].(status := Completed)
                             else db.payouts[k].(status := Failed, failureReason := payload.reason))
      && (if payload.success then MovesNoMoney(db, db') else GivesBack(db, db', k))
      && db'.webhookEvents == db.webhookEvents[e := db.webhookEvents[e].(processed := true, error := None)]
  {
    hide AvailableBalance, GroupBalance, PayoutsOk;
    var payload := db.webhookEvents[e].payload;
    OneMatch(db, k, payload.reference);
    BecomesMoves(db, Apply(db, ProcessTransfer(e)), k,
                 if payload.success then db.payouts[k].(status := Completed)
                 else db.payouts[k].(status := Failed, failureReason := payload.reason));
  }

  lemma NoMatch(db: Db, ref: Ref)
    requires NothingSentAs(db, ref)
    ensures Webhooks.MatchingPayouts(db.payouts, ref) == []
  {
    hide Webhooks.MatchingPayouts;
    FirstMatches(db.payouts, ref);
  }

  lemma FirstMatches(ps: seq<Payout>, ref: Ref)
    ensures var found := Webhooks.MatchingPayouts(ps, ref);
      |found| > 0 ==> found[0] < |ps| && ps[found[0]].transferRef == Some(ref)
  {
  }

  lemma ManyMatches(ps: seq<Payout>, ref: Ref, j: nat, k: nat)
    requires j < k < |ps| && ps[j].transferRef == Some(ref) && ps[k].transferRef == Some(ref)
    ensures |Webhooks.MatchingPayouts(ps, ref)| > 1
  {
    hide Webhooks.MatchingPayouts;
    var found := Webhooks.MatchingPayouts(ps, ref);
    assert j in found && k in found;
    var x :| 0 <= x < |found| && found[x] == j;
    var y :| 0 <= y < |found| && found[y] == k;
  }

  /** Every other notification changes nothing but its own row, and says why; one
      whose reference is ambiguous changes nothing at all. */
  lemma TransferSkipped(db: Db, e: nat, j: nat, k: nat)
    requires e < |db.webhookEvents|
    ensures var payload, db' := db.webhookEvents[e].payload, Apply(db, ProcessTransfer(e));
      && (!payload.Transfer? ==> OnlyProcessed(db, db', e, Some(NotATransferEvent)))
      && (payload.Transfer? && NothingSentAs(db, payload.reference) ==> OnlyProcessed(db, db', e, Some(NoMatchingPayout)))
      && (payload.Transfer? && SentAs(db, k, payload.reference) && !db.payouts[k].status.Processing? ==>
            OnlyProcessed(db, db', e, Some(PayoutAlready(db.payouts[k].status))))
      && (payload.Transfer? && Ambiguous(db, j, k, payload.reference) ==> db' == db)
  {
    hide Webhooks.MatchingPayouts;
    var payload := db.webhookEvents[e].payload;
    if payload.Transfer? && NothingSentAs(db, payload.reference) {
      NoMatch(db, payload.reference);
    }
    if payload.Transfer? && Ambiguous(db, j, k, payload.reference) {
      ManyMatches(db.payouts, payload.reference, j, k);
    }
    if payload.Transfer? && SentAs(db, k, payload.reference) {
      OneMatch(db, k, payload.reference);
    }
  }

  // ----- why a payout is where it is -----

  /** The provider reported this outcome for this reference. */
  ghost predicate Reported(events: seq<WebhookEvent>, ref: Ref, success: bool) {
    exists e :: 0 <= e < |events| && Reports(events[e].payload, ref, success)
  }

  predicate Reports(payload: Payload, ref: Ref, success: bool) {
    payload.Transfer? && payload.reference == ref && payload.success == success
  }

  /** Each status tells what happened: nobody transfers without an approval, and
      nothing is completed, or failed after its start, without the provider's word. */
  ghost predicate Explained(p: Payout, events: seq<WebhookEvent>) {
    match p.status
    case Requested => p.approvedBy.None? && p.transferRef.None? && p.failureReason.None? && p.rejectionReason.None?
    case Rejected => p.approvedBy.None? && p.transferRef.None? && p.failureReason.None? && p.rejectionReason.Some?
    case Approved => p.approvedBy.Some? && p.transferRef.None? && p.failureReason.None? && p.rejectionReason.None?
    case Processing => p.approvedBy.Some? && p.transferRef.Some? && p.failureReason.None? && p.rejectionReason.None?
    case Completed =>
      && p.approvedBy.Some? && p.transferRef.Some? && p.failureReason.None? && p.rejectionReason.None?
      && Reported(events, p.transferRef.value, true)
    case Failed =>
      && p.approvedBy.Some? && p.rejectionReason.None?
      && (p.transferRef.None? ==> p.failureReason.Some?)
      && (p.transferRef.Some? ==> Reported(events, p.transferRef.value, false))
  }

  ghost predicate AllExplained(db: Db) {
    forall k :: 0 <= k < |db.payouts| ==> Explained(db.payouts[k], db.webhookEvents)
  }

  /** Stored events keep their content. */
  ghost predicate ContentKept(events: seq<WebhookEvent>, events': seq<WebhookEvent>) {
    |events| <= |events'| && forall e :: 0 <= e < |events| ==> events'[e].payload == events[e].payload
  }

  lemma StillExplained(p: Payout, events: seq<WebhookEvent>, events': seq<WebhookEvent>)
    requires Explained(p, events) && ContentKept(events, events')
    ensures Explained(p, events')
  {
    if p.transferRef.Some? {
      StillReported(events, events', p.transferRef.value, true);
      StillReported(events, events', p.transferRef.value, false);
    }
  }

  lemma StillReported(events: seq<WebhookEvent>, events': seq<WebhookEvent>, ref: Ref, success: bool)
    requires ContentKept(events, events')
    ensures Reported(events, ref, success) ==> Reported(events', ref, success)
  {
    if Reported(events, ref, success) {
      var e :| 0 <= e < |events| && Reports(events[e].payload, ref, success);
      assert Reports(events'[e].payload, ref, success);
    }
  }

  lemma OthersExplained(db: Db, db': Db, k: nat, q: Payout)
    requires AllExplained(db) && ContentKept(db.webhookEvents, db'.webhookEvents)
    requires k < |db.payouts| && db'.payouts == db.payouts[k := q] && Explained(q, db'.webhookEvents)
    ensures AllExplained(db')
  {
    hide Explained;
    forall j | 0 <= j < |db'.payouts| ensures Explained(db'.payouts[j], db'.webhookEvents) {
      if j != k {
        assert Explained(db.payouts[j], db.webhookEvents);
        StillExplained(db.payouts[j], db.webhookEvents, db'.webhookEvents);
      }
    }
  }

  lemma TransferExplained(db: Db, e: nat)
    requires PayoutsOk(db) && AllExplained(db)
    requires ContentKept(db.webhookEvents, Apply(db, ProcessTransfer(e)).webhookEvents)
    ensures AllExplained(Apply(db, ProcessTransfer(e)))
  {
    hide PayoutsOk, AllExplained, Explained, ContentKept;
    var db' := Apply(db, ProcessTransfer(e));
    if e < |db.webhookEvents| {
      TransferSkipped(db, e, 0, 0);
      var payload := db.webhookEvents[e].payload;
      if payload.Transfer? {
        NamedTransferExplained(db, e);
      } else {
        SamePayoutsExplained(db, db');
      }
    } else {
      SamePayoutsExplained(db, db');
    }
  }

  lemma NamedTransferExplained(db: Db, e: nat)
    requires PayoutsOk(db) && AllExplained(db) && e < |db.webhookEvents| && db.webhookEvents[e].payload.Transfer?
    requires ContentKept(db.webhookEvents, Apply(db, ProcessTransfer(e)).webhookEvents)
    ensures AllExplained(Apply(db, ProcessTransfer(e)))
  {
    hide PayoutsOk, AllExplained, Explained, ContentKept, Apply, MovesNoMoney, GivesBack;
    var db', ref := Apply(db, ProcessTransfer(e)), db.webhookEvents[e].payload.reference;
    if NothingSentAs(db, ref) {
      TransferSkipped(db, e, 0, 0);
      SamePayoutsExplained(db, db');
    } else {
      var k :| 0 <= k < |db.payouts| && db.payouts[k].transferRef == Some(ref);
      if !SentAs(db, k, ref) {
        var j :| 0 <= j < |db.payouts| && db.payouts[j].transferRef == Some(ref) && j != k;
        TransferSkipped(db, e, if j < k then j else k, if j < k then k else j);
        SamePayoutsExplained(db, db');
      } else if db.payouts[k].status.Processing? {
        TransferOutcome(db, e, k);
        ConfirmedExplained(db, db', e, k);
      } else {
        TransferSkipped(db, e, 0, k);
        SamePayoutsExplained(db, db');
      }
    }
  }

  lemma SamePayoutsExplained(db: Db, db': Db)
    requires AllExplained(db) && ContentKept(db.webhookEvents, db'.webhookEvents) && db'.payouts == db.payouts
    ensures AllExplained(db')
  {
    hide Explained;
    forall j | 0 <= j < |db'.payouts| ensures Explained(db'.payouts[j], db'.webhookEvents) {
      assert Explained(db.payouts[j], db.webhookEvents);
      StillExplained(db.payouts[j], db.webhookEvents, db'.webhookEvents);
    }
  }

  lemma ConfirmedExplained(db: Db, db': Db, e: nat, k: nat)
    requires AllExplained(db) && ContentKept(db.webhookEvents, db'.webhookEvents)
    requires e < |db.webhookEvents| && In(db, k, Processing)
    requires var payload := db.webhookEvents[e].payload;
      && payload.Transfer? && db.payouts[k].transferRef == Some(payload.reference)
      && db'.payouts == db.payouts[k := if payload.success then db.payouts[k].(status := Completed)
                                        else db.payouts[k].(status := Failed, failureReason := payload.reason)]
    ensures AllExplained(db')
  {
    assert Explained(db.payouts[k], db.webhookEvents);
    var payload := db.webhookEvents[e].payload;
    assert Reports(db'.webhookEvents[e].payload, payload.reference, payload.success);
    OthersExplained(db, db', k, db'.payouts[k]);
  }

  lemma DecisionExplained(db: Db, step: Step)
    requires PayoutsOk(db) && AllExplained(db)
    requires step.ApprovePayout? || step.RejectPayout? || step.StartTransfer? || step.FailTransferStart?
    requires ContentKept(db.webhookEvents, Apply(db, step).webhookEvents)
    ensures AllExplained(Apply(db, step))
  {
    hide PayoutsOk, MovesNoMoney, GivesBack, Apply, AvailableBalance, GroupBalance;
    match step {
      case ApprovePayout(k, userId) => ApprovalOutcome(db, k, userId);
      case RejectPayout(k, userId, reason) => RejectionOutcome(db, k, userId, reason);
      case StartTransfer(k, ref) => TransferStartOutcome(db, k, ref);
      case FailTransferStart(k, reason) => TransferStartFailureOutcome(db, k, reason);
    }
    var k, db' := step.payout, Apply(db, step);
    if db' != db {
      assert Explained(db.payouts[k], db.webhookEvents);
      StillExplained(db.payouts[k], db.webhookEvents, db'.webhookEvents);
      OthersExplained(db, db', k, db'.payouts[k]);
    }
  }

  lemma RequestExplained(db: Db, step: Step)
    requires AllExplained(db) && step.RequestPayout?
    ensures AllExplained(Apply(db, step))
  {
  }

  lemma ProgressKeepsContent(db: Db, db': Db)
    requires Progress(db, db')
    ensures ContentKept(db.webhookEvents, db'.webhookEvents)
  {
  }

  lemma StepExplained(db: Db, step: Step)
    requires Inv(db) && Admissible(db, step) && AllExplained(db)
    ensures AllExplained(Apply(db, step))
  {
    hide Inv, Progress, Apply, Admissible, AllExplained, ContentKept;
    StepKeeps(db, step);
    ProgressKeepsContent(db, Apply(db, step));
    InvParts(db);
    if step.RequestPayout? {
      RequestExplained(db, step);
    } else if step.ProcessTransfer? {
      TransferExplained(db, step.event);
    } else if PayoutSide(step) || TransferSide(step) {
      DecisionExplained(db, step);
    } else {
      StepFrame(db, step);
      SamePayoutsExplained(db, Apply(db, step));
    }
  }

  lemma {:induction false} RunExplained(groups: nat, steps: seq<Step>)
    requires ValidRun(EmptyDb(groups), steps)
    ensures AllExplained(Run(EmptyDb(groups), steps))
  {
    hide Inv, Apply, Admissible, Explained;
    if steps != [] {
      RunExplained(groups, steps[..|steps| - 1]);
      EmptyInv(groups);
      RunKeeps(EmptyDb(groups), steps[..|steps| - 1]);
      StepExplained(Run(EmptyDb(groups), steps[..|steps| - 1]), steps[|steps| - 1]);
    }
  }

  /** In every reachable state, a completed payout was approved, and the provider
      reported success under its reference; a payout that failed after its start
      was approved, and the provider reported failure; the other statuses carry
      just the traces of the steps that lead to them. */
  lemma PayoutsExplained(db: Db, k: nat)
    requires Reachable(db) && k < |db.payouts|
    ensures Explained(db.payouts[k], db.webhookEvents)
  {
    hide Explained;
    var groups: nat, steps: seq<Step> :| ValidRun(EmptyDb(groups), steps) && db == Run(EmptyDb(groups), steps);
    RunExplained(groups, steps);
  }

  // ----- money that has left -----

  /** What has been paid out of purse p by completed purse-scoped payouts. */
  function PaidOutColumn(ps: seq<Payout>, p: nat): (r: seq<int>)
    ensures |r| == |ps|
    ensures forall k :: 0 <= k < |ps| ==>
      r[k] == if ps[k].purse == Some(p) && ps[k].status == Completed then ps[k].amount else 0
  {
    seq(|ps|, k requires 0 <= k < |ps| => if ps[k].purse == Some(p) && ps[k].status == Completed then ps[k].amount else 0)
  }

  lemma PaidOutWithinDirect(db: Db, p: nat)
    requires PayoutsOk(db)
    ensures Sum(PaidOutColumn(db.payouts, p)) <= DirectTotal(db, p)
  {
    forall k | 0 <= k < |db.payouts| ensures PaidOutColumn(db.payouts, p)[k] <= Column(DirectRows(db.payouts), p)[k] {
      assert PayoutKnown(db.payouts[k], db.purses);
    }
    SumMonotone(PaidOutColumn(db.payouts, p), Column(DirectRows(db.payouts), p));
  }

  /** In a run whose payouts are all purse-scoped, no purse ever pays out more
      than it has collected. */
  lemma PaidOutIsCollected(groups: nat, steps: seq<Step>, p: nat)
    requires ValidRun(EmptyDb(groups), steps) && OnlyDirect(steps)
    ensures var db := Run(EmptyDb(groups), steps); Sum(PaidOutColumn(db.payouts, p)) <= CollectedTotal(db, p)
  {
    hide Inv, Apply, Admissible;
    var db := Run(EmptyDb(groups), steps);
    NoOverdraftWithDirectPayouts(groups, steps);
    EmptyInv(groups);
    RunKeeps(EmptyDb(groups), steps);
    InvParts(db);
    PaidOutWithinDirect(db, p);
    PartsNonNegative(db, p);
    assert AvailableBalance(db, p) >= 0;
  }

  /** Over a whole group and any kinds of payout: while its balance is not
      negative, it has not paid out more than its purses collected. */
  function GroupPaidOutColumn(ps: seq<Payout>, g: nat): (r: seq<int>)
    ensures |r| == |ps|
    ensures forall k :: 0 <= k < |ps| ==>
      r[k] == if ps[k].group == g && ps[k].status == Completed then ps[k].amount else 0
  {
    seq(|ps|, k requires 0 <= k < |ps| => if ps[k].group == g && ps[k].status == Completed then ps[k].amount else 0)
  }

  lemma GroupPaidOutIsCollected(db: Db, g: nat)
    requires PayoutsOk(db) && GroupBalance(db, g) >= 0
    ensures Sum(GroupPaidOutColumn(db.payouts, g)) <= Sum(Masked(PaidRows(db.contributions), Members(db.purses, g)))
  {
    forall k | 0 <= k < |db.payouts| ensures GroupPaidOutColumn(db.payouts, g)[k] <= Column(GroupRows(db.payouts), g)[k] {
      assert PayoutKnown(db.payouts[k], db.purses);
    }
    SumMonotone(GroupPaidOutColumn(db.payouts, g), Column(GroupRows(db.payouts), g));
  }
}
