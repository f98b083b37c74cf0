/** What each step does to contributions, stated from what the step is given (a
    payload, an answer, an amount, a price) and the columns it looks at. */
module ContributionEffects {
  import opened Rows
  import opened Contributions
  import opened ContributionLaws
  import opened Platform
  import opened StepFrames
  import opened RunGuarantees
  import Jobs
  import JobLaws
  import Webhooks

  predicate Payable(c: Contribution) {
    c.status == Pending || c.status == Expired
  }

  /** What a payment of this amount makes of a row whose invoice was for `invoiced`. */
  function AfterPayment(c: Contribution, invoiced: Kobo, amount: nat, paidOn: Option<Time>, now: Time): Contribution {
    var paid := c.(received := c.received + amount, updatedAt := now);
    if amount == invoiced then paid.(status := Paid, paidAt := if paidOn.Some? then paidOn else Some(now))
    else paid.(status := Flagged)
  }

  // ----- collection notifications -----

  /** The row's invoice is one of the two names; an empty name is no invoice's. */
  predicate Carries(c: Contribution, paymentRef: Ref, transactionRef: Ref) {
    c.invoice.Some? && c.invoice.value != "" && (c.invoice.value == paymentRef || c.invoice.value == transactionRef)
  }

  predicate CarriedBy(db: Db, i: nat, p: Payload)
    requires p.Collection?
  {
    i < |db.contributions| && Carries(db.contributions[i], p.paymentRef, p.transactionRef)
  }

  ghost predicate OnlyRow(db: Db, i: nat, p: Payload)
    requires p.Collection?
  {
    CarriedBy(db, i, p) && forall j: nat :: CarriedBy(db, j, p) ==> j == i
  }

  ghost predicate NoRow(db: Db, p: Payload)
    requires p.Collection?
  {
    forall j: nat :: !CarriedBy(db, j, p)
  }

  lemma CarriedIsMatching(db: Db, j: nat, p: Payload)
    requires p.Collection?
    ensures CarriedBy(db, j, p) <==> j in Webhooks.Matching(db.contributions, Webhooks.RefsOf(p.paymentRef, p.transactionRef))
  {
  }

  lemma MatchingAscends(db: Db, p: Payload)
    requires p.Collection?
    ensures var found := Webhooks.Matching(db.contributions, Webhooks.RefsOf(p.paymentRef, p.transactionRef));
      |found| > 1 ==> found[0] < found[1]
  {
  }

  lemma OnlyRowIsFound(db: Db, i: nat, p: Payload)
    requires p.Collection? && OnlyRow(db, i, p)
    ensures Webhooks.Matching(db.contributions, Webhooks.RefsOf(p.paymentRef, p.transactionRef)) == [i]
  {
    hide Webhooks.Matching, Webhooks.RefsOf, CarriedBy;
    MatchingAscends(db, p);
    var found := Webhooks.Matching(db.contributions, Webhooks.RefsOf(p.paymentRef, p.transactionRef));
    CarriedIsMatching(db, i, p);
    forall x | 0 <= x < |found| ensures found[x] == i {
      CarriedIsMatching(db, found[x], p);
    }
  }

  /** A payment that names exactly one row, still payable, is booked there: paid
      if and only if it is the amount the row's invoice was issued for. One credit
      under that invoice, one event and its audit row are added, and the
      notification is processed without error. */
  lemma CollectionBooked(db: Db, e: nat, i: nat, now: Time)
    requires ContributionsOk(db) && e < |db.webhookEvents| && db.webhookEvents[e].payload.Collection?
    requires OnlyRow(db, i, db.webhookEvents[e].payload) && Payable(db.contributions[i])
    ensures db.contributions[i].invoice.value in db.invoices
    ensures var p, c := db.webhookEvents[e].payload, db.contributions[i];
      var c' := AfterPayment(c, db.invoices[c.invoice.value].amount, p.amount, p.paidOn, now);
      Apply(db, ProcessCollection(e, now)) == db.(
        contributions := db.contributions[i := c'],
        credits := db.credits + [Credit(i, c.invoice, p.amount)],
        contributionEvents := db.contributionEvents + [ContributionEvent(i, c.status, c'.status, Webhook, None)],
        audit := db.audit + [ContributionTransition(i, c.status, c'.status, ByWebhook, None)],
        webhookEvents := db.webhookEvents[e := db.webhookEvents[e].(processed := true, error := None)])
  {
    hide ContributionsOk, Webhooks.Matching;
    HeldInvoice(db, i);
    OnlyRowIsFound(db, i, db.webhookEvents[e].payload);
  }

  lemma HeldInvoice(db: Db, i: nat)
    requires ContributionsOk(db) && i < |db.contributions|
    requires Payable(db.contributions[i]) && db.contributions[i].invoice.Some?
    ensures db.contributions[i].invoice.value in db.invoices
    ensures db.invoices[db.contributions[i].invoice.value].amount == db.contributions[i].expected - db.contributions[i].received
  {
    assert RowAgrees(db.contributions[i], i, db.invoices, db.credits);
  }

  /** Every other collection notification changes nothing but its own row, and says
      why; one that names two rows changes nothing at all. */
  lemma CollectionSkipped(db: Db, e: nat, i: nat, j: nat, now: Time)
    requires e < |db.webhookEvents| && db.webhookEvents[e].payload.Collection?
    ensures var p, db' := db.webhookEvents[e].payload, Apply(db, ProcessCollection(e, now));
      && (NoRow(db, p) ==> OnlyProcessed(db, db', e, Some(NoMatchingContribution)))
      && (OnlyRow(db, i, p) && !Payable(db.contributions[i]) ==>
            OnlyProcessed(db, db', e, Some(ContributionAlready(db.contributions[i].status))))
      && (i != j && CarriedBy(db, i, p) && CarriedBy(db, j, p) ==> db' == db)
  {
    hide Webhooks.Matching, Webhooks.RefsOf, CarriedBy;
    var p := db.webhookEvents[e].payload;
    var found := Webhooks.Matching(db.contributions, Webhooks.RefsOf(p.paymentRef, p.transactionRef));
    CarriedIsMatching(db, i, p);
    CarriedIsMatching(db, j, p);
    if NoRow(db, p) {
      assert |found| == 0 || found[0] in found;
      if |found| > 0 {
        CarriedIsMatching(db, found[0], p);
      }
    }
    if OnlyRow(db, i, p) {
      OnlyRowIsFound(db, i, p);
    }
  }

  // ----- money in -----

  /** What a step books on row i, by what it carries: the amount a rep logs, the
      amount of a notification that names this row alone, or the provider's answer
      for this row's invoice; nothing if the row is not in a state to take it, and
      nothing for any other kind of step. */
  ghost function Booked(db: Db, step: Step, i: nat): Kobo
    requires i < |db.contributions|
  {
    var c := db.contributions[i];
    match step
    case LogManual(j, _, amount, _) =>
      if j == i && amount > 0 && c.status != Paid && c.status != PaidManual then amount else 0
    case ProcessCollection(e, _) =>
      if e < |db.webhookEvents| && db.webhookEvents[e].payload.Collection? &&
        OnlyRow(db, i, db.webhookEvents[e].payload) && Payable(c)
      then db.webhookEvents[e].payload.amount else 0
    case RunReconciliation(_, rows, answers, _) =>
      if i in rows && Payable(c) && c.invoice.Some? && c.invoice.value in answers
      then answers[c.invoice.value].amount else 0
    case _ => 0
  }

  /** Row i has received that much more after the step, and a new row nothing. */
  ghost predicate BooksExactly(db: Db, step: Step) {
    var db' := Apply(db, step);
    && |db.contributions| <= |db'.contributions|
    && (forall i :: 0 <= i < |db.contributions| ==>
          db'.contributions[i].received == db.contributions[i].received + Booked(db, step, i))
    && (forall i :: |db.contributions| <= i < |db'.contributions| ==> db'.contributions[i].received == 0)
  }

  lemma PurseStepBooksNothing(db: Db, step: Step)
    requires PurseSide(step)
    ensures BooksExactly(db, step)
  {
  }

  lemma RepStepBooks(db: Db, step: Step)
    requires step.LogManual? || step.DecideFlag? || step.Deliver? || step.Reset?
    ensures BooksExactly(db, step)
  {
  }

  lemma InvoiceStepBooksNothing(db: Db, step: Step)
    requires step.RequestInvoice?
    ensures BooksExactly(db, step)
  {
    hide Transition;
    if step.contribution < |db.contributions| {
      var db1 := ExpireIfNeeded(db, step.contribution, step.now);
      ExpiryBooksNothing(db, step.contribution, step.now);
      if step.answer.Some? {
        RecordingBooksNothing(db1, step.contribution, step.answer.value, step.fee, step.now);
      }
    }
  }

  /** Same rows, same money. */
  ghost predicate SameReceived(db: Db, db': Db) {
    && |db'.contributions| == |db.contributions|
    && forall i :: 0 <= i < |db.contributions| ==> db'.contributions[i].received == db.contributions[i].received
  }

  lemma ExpiryBooksNothing(db: Db, i: nat, now: Time)
    requires i < |db.contributions|
    ensures SameReceived(db, ExpireIfNeeded(db, i, now))
  {
  }

  lemma RecordingBooksNothing(db: Db, i: nat, inv: ProviderInvoice, fee: Option<nat>, now: Time)
    requires i < |db.contributions|
    ensures SameReceived(db, RecordInvoice(db, i, inv, fee, now))
  {
  }

  lemma JobBooks(db: Db, step: Step)
    requires step.RunReconciliation? && Admissible(db, step)
    ensures BooksExactly(db, step)
  {
    hide Jobs.Reconcile, JobLaws.RowAfter, Booked;
    SelectedExist(db, step.mode, step.rows, step.now);
    JobLaws.RunIsPointwise(db, step.rows, step.answers, step.now);
    forall i | 0 <= i < |db.contributions|
      ensures Apply(db, step).contributions[i].received == db.contributions[i].received + Booked(db, step, i)
    {
      RowBooks(db, step, i);
    }
  }

  lemma RowBooks(db: Db, step: Step, i: nat)
    requires step.RunReconciliation? && i < |db.contributions|
    ensures (if i in step.rows then JobLaws.RowAfter(db.contributions[i], step.answers, step.now)
             else db.contributions[i]).received == db.contributions[i].received + Booked(db, step, i)
  {
  }

  lemma CollectionBooks(db: Db, step: Step)
    requires ContributionsOk(db) && step.ProcessCollection?
    ensures BooksExactly(db, step)
  {
    hide ContributionsOk, Webhooks.Matching, CarriedBy;
    var e := step.event;
    if e < |db.webhookEvents| && db.webhookEvents[e].payload.Collection? {
      var p := db.webhookEvents[e].payload;
      var found := Webhooks.Matching(db.contributions, Webhooks.RefsOf(p.paymentRef, p.transactionRef));
      forall j: nat ensures CarriedBy(db, j, p) <==> j in found {
        CarriedIsMatching(db, j, p);
      }
      MatchedBooks(db, step, found);
    }
  }

  lemma MatchedBooks(db: Db, step: Step, found: seq<nat>)
    requires ContributionsOk(db) && step.ProcessCollection? && step.event < |db.webhookEvents|
    requires var p := db.webhookEvents[step.event].payload;
      && p.Collection? && found == Webhooks.Matching(db.contributions, Webhooks.RefsOf(p.paymentRef, p.transactionRef))
      && forall j: nat :: CarriedBy(db, j, p) <==> j in found
    ensures BooksExactly(db, step)
  {
    hide ContributionsOk, Webhooks.Matching, CarriedBy, Apply;
    var e, p := step.event, db.webhookEvents[step.event].payload;
    if |found| == 0 {
      CollectionSkipped(db, e, 0, 0, step.now);
    } else if |found| == 1 {
      assert found[0] in found;
      assert OnlyRow(db, found[0], p);
      CollectionSkipped(db, e, found[0], found[0], step.now);
      CarriedExists(db, found[0], p);
      if Payable(db.contributions[found[0]]) {
        CollectionBooked(db, e, found[0], step.now);
      }
    } else {
      MatchingAscends(db, p);
      assert found[0] in found && found[1] in found;
      CollectionSkipped(db, e, found[0], found[1], step.now);
    }
  }

  lemma CarriedExists(db: Db, i: nat, p: Payload)
    requires p.Collection? && CarriedBy(db, i, p)
    ensures i < |db.contributions|
  {
  }

  /** Every step adds to every row exactly what it carries for it. */
  lemma StepBooks(db: Db, step: Step)
    requires Inv(db) && Admissible(db, step)
    ensures BooksExactly(db, step)
  {
    hide Inv, BooksExactly;
    InvParts(db);
    if PurseSide(step) {
      PurseStepBooksNothing(db, step);
    } else if step.RequestInvoice? {
      InvoiceStepBooksNothing(db, step);
    } else if step.RunReconciliation? {
      JobBooks(db, step);
    } else if step.ProcessCollection? {
      CollectionBooks(db, step);
    } else if PayoutSide(step) || TransferSide(step) {
      PayoutStepBooksNothing(db, step);
    } else {
      RepStepBooks(db, step);
    }
  }

  lemma PayoutStepBooksNothing(db: Db, step: Step)
    requires PayoutSide(step) || TransferSide(step)
    ensures BooksExactly(db, step)
  {
    hide Apply;
    StepFrame(db, step);
  }

  /** What a run books on row i, over all its steps. */
  ghost function BookedOver(db: Db, steps: seq<Step>, i: nat): Kobo {
    if steps == [] then 0
    else
      var front, last := steps[..|steps| - 1], steps[|steps| - 1];
      BookedOver(db, front, i) + if i < |Run(db, front).contributions| then Booked(Run(db, front), last, i) else 0
  }

  /** Conservation: after any run, every contribution has received exactly the
      amounts that the steps of the run carried for it. */
  lemma {:induction false} ReceivedIsBooked(groups: nat, steps: seq<Step>, i: nat)
    requires ValidRun(EmptyDb(groups), steps)
    ensures var db := Run(EmptyDb(groups), steps);
      if i < |db.contributions| then db.contributions[i].received == BookedOver(EmptyDb(groups), steps, i)
      else BookedOver(EmptyDb(groups), steps, i) == 0
  {
    hide Inv, Apply, Admissible, Booked;
    if steps != [] {
      var front, last := steps[..|steps| - 1], steps[|steps| - 1];
      ReceivedIsBooked(groups, front, i);
      EmptyInv(groups);
      RunKeeps(EmptyDb(groups), front);
      StepBooks(Run(EmptyDb(groups), front), last);
    }
  }

  // ----- what a rep decides -----

  /** Row i becomes c, and both logs record the change under this actor. */
  ghost predicate RowBecomes(db: Db, db': Db, i: nat, c: Contribution, actor: ActorType, actorId: Option<nat>) {
    && i < |db.contributions|
    && db'.contributions == db.contributions[i := c]
    && db'.contributionEvents == db.contributionEvents + [ContributionEvent(i, db.contributions[i].status, c.status, actor, actorId)]
    && db'.audit == db.audit + [ContributionTransition(i, db.contributions[i].status, c.status,
         if actor.Webhook? then ByWebhook else if actor.ReconciliationJob? then ByReconciliationJob else ByGroupAdmin, actorId)]
    && db'.purses == db.purses && db'.payouts == db.payouts && db'.allocations == db.allocations
    && db'.invoices == db.invoices && db'.webhookEvents == db.webhookEvents
  }

  /** A manual mark settles any row that is not settled, with the logged amount on
      top of what it had; it is recorded under the admin, and is no invoice's. */
  lemma ManualOutcome(db: Db, i: nat, admin: Admin, amount: Kobo, now: Time)
    ensures var db' := Apply(db, LogManual(i, admin, amount, now));
      if i < |db.contributions| && amount > 0 && db.contributions[i].status !in {Paid, PaidManual}
      then
        var c := db.contributions[i];
        && RowBecomes(db, db', i, c.(status := PaidManual, received := c.received + amount, paidAt := Some(now), updatedAt := now),
                      RepManual, Some(admin.id))
        && db'.credits == db.credits + [Credit(i, None, amount)]
      else db' == db
  {
  }

  /** A flagged row is accepted as paid with what it has received, or reopened
      without its invoice; neither moves money, and nothing else resolves a flag. */
  lemma FlagOutcome(db: Db, i: nat, admin: Admin, resolution: Resolution, now: Time)
    ensures var db' := Apply(db, DecideFlag(i, admin, resolution, now));
      if i < |db.contributions| && db.contributions[i].status == Flagged && (resolution.AcceptPartial? || resolution.RequestTopup?)
      then
        var c := db.contributions[i];
        && RowBecomes(db, db', i,
             if resolution.AcceptPartial? then c.(status := Paid, paidAt := Some(now), updatedAt := now)
             else c.(status := Pending, updatedAt := now, invoice := None, account := None, expiresAt := None, feePercent := None),
             RepManual, Some(admin.id))
        && db'.credits == db.credits
      else db' == db
  {
  }

  // ----- invoices -----

  /** At any time, a pending row with an account to pay into has either a live
      invoice or a lapsed one, the instant of expiry being lapsed. */
  lemma LiveOrLapsed(c: Contribution, now: Time)
    requires c.status == Pending && c.account.Some? && c.expiresAt.Some?
    ensures HasLiveInvoice(c, now) <==> now < c.expiresAt.value
    ensures Lapsed(c, now) <==> c.expiresAt.value <= now
  {
  }

  /** Requesting an invoice for an invoiceable row leaves it pending with exactly the
      provider's reference, account and expiry and the fee of the day; what it
      owes, and every other row, stays. */
  lemma InvoiceOutcome(db: Db, i: nat, answer: ProviderInvoice, fee: Option<nat>, now: Time)
    requires Invoiceable(db, i, now)
    ensures var db' := Apply(db, RequestInvoice(i, Some(answer), fee, now));
      && |db'.contributions| == |db.contributions|
      && (forall j :: 0 <= j < |db.contributions| && j != i ==> db'.contributions[j] == db.contributions[j])
      && db'.contributions[i] == db.contributions[i].(
           status := Pending, invoice := Some(answer.ref), account := answer.account, expiresAt := Some(answer.expiresAt),
           feePercent := fee, updatedAt := now)
  {
  }

  /** While that invoice is live, asking again changes nothing, whatever the provider would answer. */
  lemma LiveInvoiceIsKept(db: Db, i: nat, answer: ProviderInvoice, fee: Option<nat>, now: Time,
                          again: Option<ProviderInvoice>, fee': Option<nat>, later: Time)
    requires Invoiceable(db, i, now) && answer.account.Some? && later < answer.expiresAt
    ensures var db' := Apply(db, RequestInvoice(i, Some(answer), fee, now));
      Apply(db', RequestInvoice(i, again, fee', later)) == db'
  {
    hide Transition, RecordInvoice;
    InvoiceOutcome(db, i, answer, fee, now);
  }

  predicate TakesMoney(db: Db, p: nat, now: Time) {
    p < |db.purses| && db.purses[p].status == Open && now < db.purses[p].deadline
  }

  /** Why a request for an invoice is refused, each refusal on exactly its condition. */
  lemma InvoiceRefusals(db: Db, i: nat, answer: Option<ProviderInvoice>, fee: Option<nat>, now: Time)
    requires i < |db.contributions| && db.contributions[i].purse < |db.purses|
    ensures var r, c := GenerateInvoice(db, i, answer, fee, now).1, db.contributions[i];
      && (r == Err(PurseClosed) <==> !TakesMoney(db, c.purse, now))
      && (r == Err(InvoiceNotGeneratable) <==> TakesMoney(db, c.purse, now) && !Payable(c))
      && (r == Err(ProviderFailed) <==> Invoiceable(db, i, now) && answer.None?)
      && (r == Ok(()) <==> TakesMoney(db, c.purse, now) && Payable(c) && (HasLiveInvoice(c, now) || answer.Some?))
  {
  }

  lemma DecisionRefusals(db: Db, i: nat, admin: Admin, amount: Kobo, resolution: Resolution, now: Time)
    requires i < |db.contributions|
    ensures var manual, flag := MarkManual(db, i, admin, amount, now).1, ResolveFlag(db, i, admin, resolution, now).1;
      var status := db.contributions[i].status;
      && (manual == Err(InvalidRequest) <==> amount <= 0)
      && (manual == Err(AlreadyResolved) <==> amount > 0 && (status == Paid || status == PaidManual))
      && (flag == Err(NotFlagged) <==> status != Flagged)
      && (flag == Err(RefundNotSupported) <==> status == Flagged && resolution == Refund)
      && (flag == Err(InvalidResolution) <==> status == Flagged && resolution == UnknownResolution)
  {
  }

  // ----- prices -----

  /** A row that nothing has happened to, by the event log. */
  ghost predicate Untouched(db: Db, i: nat) {
    forall k :: 0 <= k < |db.contributionEvents| ==> db.contributionEvents[k].contribution != i
  }

  ghost predicate PricesAgree(db: Db) {
    forall i :: 0 <= i < |db.contributions| && Untouched(db, i) ==>
      db.contributions[i].purse < |db.purses| && db.contributions[i].expected == db.purses[db.contributions[i].purse].amount
  }

  /** An accepted edit of the amount reprices exactly the pending rows of the purse,
      which lose whatever invoice they held; no other row changes. */
  lemma EditOutcome(db: Db, admin: Admin, p: nat, amount: Option<Kobo>, deadline: Option<Time>, now: Time)
    ensures var db' := Apply(db, EditPurse(admin, p, amount, deadline, now));
      if p < |db.purses| && db.purses[p].group == admin.group && db.purses[p].status == Open
        && (amount.Some? ==> amount.value > 10_000) && (deadline.Some? ==> deadline.value > now)
      then
        && db'.purses == db.purses[p := db.purses[p].(
             amount := if amount.Some? then amount.value else db.purses[p].amount,
             deadline := if deadline.Some? then deadline.value else db.purses[p].deadline)]
        && |db'.contributions| == |db.contributions|
        && (forall i :: 0 <= i < |db.contributions| ==> Repriced(db.contributions[i], db'.contributions[i], p, amount))
        && db'.contributionEvents == db.contributionEvents && db'.credits == db.credits && db'.invoices == db.invoices
        && db'.audit == db.audit + [PurseChange(p, Edited, admin.id,
             PurseFacts(Some(db.purses[p].amount), Some(db.purses[p].deadline), None),
             PurseFacts(Some(db'.purses[p].amount), Some(db'.purses[p].deadline), None))]
      else db' == db
  {
  }

  /** c' is c after purse p is repriced to the amount, if one is given. */
  predicate Repriced(c: Contribution, c': Contribution, p: nat, amount: Option<Kobo>) {
    if amount.Some? && c.purse == p && c.status == Pending
    then
      && c'.expected == amount.value && c'.invoice.None?
      && c'.received == c.received && c'.status == Pending && c'.purse == p && c'.paidAt == c.paidAt
      && (if c.expected == amount.value && c.invoice.None? then c' == c
          else c'.account.None? && c'.expiresAt.None? && c'.feePercent.None?)
    else c' == c
  }

  lemma EditKeepsPrices(db: Db, step: Step)
    requires Inv(db) && PricesAgree(db) && step.EditPurse?
    ensures PricesAgree(Apply(db, step))
  {
    hide Inv;
    var db' := Apply(db, step);
    EditOutcome(db, step.admin, step.purse, step.newAmount, step.newDeadline, step.now);
    hide Apply;
    if db' != db {
      forall i | 0 <= i < |db'.contributions| && Untouched(db', i)
        ensures db'.contributions[i].purse < |db'.purses|
        ensures db'.contributions[i].expected == db'.purses[db'.contributions[i].purse].amount
      {
        assert Untouched(db, i);
        UntouchedIsPending(db, i);
        assert Repriced(db.contributions[i], db'.contributions[i], step.purse, step.newAmount);
      }
    }
  }

  lemma UntouchedIsPending(db: Db, i: nat)
    requires Inv(db) && i < |db.contributions| && Untouched(db, i)
    ensures db.contributions[i].status == Pending
  {
    NoEvents(db.contributionEvents, i);
  }

  lemma LeftPricesAgree(db: Db, db': Db)
    requires PricesAgree(db) && PricesLeft(db, db')
    ensures PricesAgree(db')
  {
    forall i | 0 <= i < |db'.contributions| && Untouched(db', i)
      ensures db'.contributions[i].purse < |db'.purses|
      ensures db'.contributions[i].expected == db'.purses[db'.contributions[i].purse].amount
    {
      forall k | 0 <= k < |db.contributionEvents| ensures db.contributionEvents[k].contribution != i {
        assert db'.contributionEvents[k] == db.contributionEvents[k];
      }
      assert Untouched(db, i);
    }
  }

  lemma OtherPurseStepsKeepPrices(db: Db, step: Step)
    requires PricesAgree(db) && PurseSide(step) && !step.EditPurse?
    ensures PricesAgree(Apply(db, step))
  {
    var db' := Apply(db, step);
    forall i | 0 <= i < |db'.contributions| && Untouched(db', i)
      ensures db'.contributions[i].purse < |db'.purses|
      ensures db'.contributions[i].expected == db'.purses[db'.contributions[i].purse].amount
    {
      if i < |db.contributions| {
        assert Untouched(db, i);
      }
    }
  }

  lemma StepKeepsPrices(db: Db, step: Step)
    requires Inv(db) && Admissible(db, step) && PricesAgree(db)
    ensures PricesAgree(Apply(db, step))
  {
    hide Inv, Apply, PricesAgree;
    if step.EditPurse? {
      EditKeepsPrices(db, step);
    } else if PurseSide(step) {
      OtherPurseStepsKeepPrices(db, step);
    } else {
      StepFrame(db, step);
      LeftPricesAgree(db, Apply(db, step));
    }
  }

  lemma {:induction false} RunKeepsPrices(groups: nat, steps: seq<Step>)
    requires ValidRun(EmptyDb(groups), steps)
    ensures PricesAgree(Run(EmptyDb(groups), steps))
  {
    hide Inv, Apply, Admissible;
    if steps != [] {
      var front := steps[..|steps| - 1];
      RunKeepsPrices(groups, front);
      EmptyInv(groups);
      RunKeeps(EmptyDb(groups), front);
      StepKeepsPrices(Run(EmptyDb(groups), front), steps[|steps| - 1]);
    }
  }

  /** In every reachable state, a contribution that nothing has happened to expects
      exactly its purse's amount of now. */
  lemma UntouchedExpectsPrice(db: Db, i: nat)
    requires Reachable(db) && i < |db.contributions| && Untouched(db, i)
    ensures db.contributions[i].purse < |db.purses|
    ensures db.contributions[i].expected == db.purses[db.contributions[i].purse].amount
  {
    var groups: nat, steps: seq<Step> :| ValidRun(EmptyDb(groups), steps) && db == Run(EmptyDb(groups), steps);
    RunKeepsPrices(groups, steps);
  }

  /** After an accepted edit to a new amount, the next invoice issued for a pending
      row of the purse is for that amount less what the row has received. */
  lemma NextInvoiceHasNewPrice(db: Db, admin: Admin, p: nat, amount: Kobo, deadline: Option<Time>, now: Time,
                               i: nat, answer: ProviderInvoice, fee: Option<nat>, later: Time)
    requires Apply(db, EditPurse(admin, p, Some(amount), deadline, now)) != db
    requires i < |db.contributions| && db.contributions[i].purse == p && db.contributions[i].status == Pending
    ensures var edited := Apply(db, EditPurse(admin, p, Some(amount), deadline, now));
      var step := RequestInvoice(i, Some(answer), fee, later);
      answer.ref !in edited.invoices && answer.ref in Apply(edited, step).invoices ==>
        Apply(edited, step).invoices[answer.ref] == IssuedInvoice(i, amount - db.contributions[i].received)
  {
    EditOutcome(db, admin, p, Some(amount), deadline, now);
    var edited := Apply(db, EditPurse(admin, p, Some(amount), deadline, now));
    hide Apply;
    assert Repriced(db.contributions[i], edited.contributions[i], p, Some(amount));
    if answer.ref !in edited.invoices {
      InvoiceIssuedIff(edited, RequestInvoice(i, Some(answer), fee, later), answer.ref);
    }
  }

  // ----- reconciliation -----

  /** Rows that a run of this mode looks at: payable ones with an invoice, in the
      purse asked for, or anywhere, or anywhere and left alone for an hour. */
  predicate InScope(c: Contribution, mode: Jobs.Mode, now: Time) {
    Payable(c) && c.invoice.Some? &&
    match mode
    case OnePurse(p) => c.purse == p
    case Everything => true
    case Scheduled => c.updatedAt + 3_600 <= now
  }

  /** A run books every answered row in scope like a notification would, expires
      the lapsed ones among the others in scope, and leaves every other row. */
  lemma ReconciliationOutcome(db: Db, mode: Jobs.Mode, rows: seq<nat>, answers: Jobs.Answers, now: Time, i: nat)
    requires ContributionsOk(db) && Jobs.IsSelection(db.contributions, mode, now, rows) && i < |db.contributions|
    ensures var c, db' := db.contributions[i], Apply(db, RunReconciliation(mode, rows, answers, now));
      && |db'.contributions| == |db.contributions|
      && (InScope(c, mode, now) ==> c.invoice.value in db.invoices)
      && db'.contributions[i] ==
           if !InScope(c, mode, now) then c
           else if c.invoice.value in answers
           then AfterPayment(c, db.invoices[c.invoice.value].amount, answers[c.invoice.value].amount,
                             answers[c.invoice.value].paidOn, now)
           else if c.status == Pending && c.expiresAt.Some? && c.expiresAt.value <= now
           then c.(status := Expired, updatedAt := now)
           else c
  {
    var c := db.contributions[i];
    ScopeIsPayable(c, mode, now);
    hide ContributionsOk, Jobs.IsSelection, Jobs.Reconcile, JobLaws.RowAfterJob, InScope, AfterPayment;
    SelectedExist(db, mode, rows, now);
    JobLaws.JobRows(db, mode, rows, answers, now);
    if InScope(c, mode, now) {
      HeldInvoice(db, i);
    }
    RowOutcome(c, c.expected - c.received, mode, answers, now);
  }

  lemma ScopeIsPayable(c: Contribution, mode: Jobs.Mode, now: Time)
    ensures InScope(c, mode, now) ==> Payable(c) && c.invoice.Some?
  {
  }

  lemma SelectedExist(db: Db, mode: Jobs.Mode, rows: seq<nat>, now: Time)
    requires Jobs.IsSelection(db.contributions, mode, now, rows)
    ensures forall x :: 0 <= x < |rows| ==> rows[x] < |db.contributions|
  {
  }

  lemma RowOutcome(c: Contribution, owed: Kobo, mode: Jobs.Mode, answers: Jobs.Answers, now: Time)
    requires owed == c.expected - c.received
    ensures JobLaws.RowAfterJob(c, mode, answers, now) ==
      if !InScope(c, mode, now) then c
      else if c.invoice.value in answers
      then AfterPayment(c, owed, answers[c.invoice.value].amount, answers[c.invoice.value].paidOn, now)
      else if c.status == Pending && c.expiresAt.Some? && c.expiresAt.value <= now
      then c.(status := Expired, updatedAt := now)
      else c
  {
  }

  // ----- processing again -----

  /** Resetting a collection notification and processing it again books nothing
      more: every contribution and every credit stays as the first time left it. */
  lemma ProcessedTwiceBooksOnce(db: Db, e: nat, now: Time, later: Time)
    requires ContributionsOk(db)
    ensures var once := Apply(db, ProcessCollection(e, now));
      var twice := Apply(Apply(once, Reset(e)), ProcessCollection(e, later));
      twice.contributions == once.contributions && twice.credits == once.credits
  {
    hide ContributionsOk, Webhooks.Matching, Webhooks.RefsOf, CarriedBy, Apply;
    var once := Apply(db, ProcessCollection(e, now));
    if e < |db.webhookEvents| && db.webhookEvents[e].payload.Collection? {
      var p := db.webhookEvents[e].payload;
      var found := Webhooks.Matching(db.contributions, Webhooks.RefsOf(p.paymentRef, p.transactionRef));
      forall j: nat ensures CarriedBy(db, j, p) <==> j in found {
        CarriedIsMatching(db, j, p);
      }
      SecondTime(db, e, now, later, found);
    } else {
      NotACollectionTwice(db, e, now, later);
    }
  }

  lemma NotACollectionTwice(db: Db, e: nat, now: Time, later: Time)
    requires e < |db.webhookEvents| ==> !db.webhookEvents[e].payload.Collection?
    ensures var once := Apply(db, ProcessCollection(e, now));
      var twice := Apply(Apply(once, Reset(e)), ProcessCollection(e, later));
      twice.contributions == once.contributions && twice.credits == once.credits
  {
  }

  /** The same event over the same invoices names the same rows. */
  lemma SameNames(db: Db, db': Db, j: nat, p: Payload)
    requires p.Collection? && |db'.contributions| == |db.contributions|
    requires forall i :: 0 <= i < |db.contributions| ==> db'.contributions[i].invoice == db.contributions[i].invoice
    ensures CarriedBy(db', j, p) <==> CarriedBy(db, j, p)
  {
  }

  lemma ResetOutcome(db: Db, e: nat)
    ensures var db' := Apply(db, Reset(e));
      if e < |db.webhookEvents|
      then db' == db.(webhookEvents := db.webhookEvents[e := db.webhookEvents[e].(processed := false, error := None)])
      else db' == db
  {
  }

  lemma SecondTime(db: Db, e: nat, now: Time, later: Time, found: seq<nat>)
    requires ContributionsOk(db) && e < |db.webhookEvents| && db.webhookEvents[e].payload.Collection?
    requires var p := db.webhookEvents[e].payload;
      && found == Webhooks.Matching(db.contributions, Webhooks.RefsOf(p.paymentRef, p.transactionRef))
      && forall j: nat :: CarriedBy(db, j, p) <==> j in found
    ensures var once := Apply(db, ProcessCollection(e, now));
      var twice := Apply(Apply(once, Reset(e)), ProcessCollection(e, later));
      twice.contributions == once.contributions && twice.credits == once.credits
  {
    hide ContributionsOk, Webhooks.Matching, Webhooks.RefsOf, CarriedBy, Apply;
    var p, once := db.webhookEvents[e].payload, Apply(db, ProcessCollection(e, now));
    var again := Apply(once, Reset(e));
    if |found| == 0 {
      CollectionSkipped(db, e, 0, 0, now);
      ResetOutcome(once, e);
      NamesStay(db, again, p);
      CollectionSkipped(again, e, 0, 0, later);
    } else if |found| == 1 {
      var i := found[0];
      assert i in found;
      CarriedExists(db, i, p);
      CollectionSkipped(db, e, i, i, now);
      if Payable(db.contributions[i]) {
        CollectionBooked(db, e, i, now);
      }
      ResetOutcome(once, e);
      NamesStay(db, again, p);
      CollectionSkipped(again, e, i, i, later);
    } else {
      MatchingAscends(db, p);
      assert found[0] in found && found[1] in found;
      CollectionSkipped(db, e, found[0], found[1], now);
      ResetOutcome(once, e);
      NamesStay(db, again, p);
      CollectionSkipped(again, e, found[0], found[1], later);
    }
  }

  lemma NamesStay(db: Db, db': Db, p: Payload)
    requires p.Collection? && |db'.contributions| == |db.contributions|
    requires forall i :: 0 <= i < |db.contributions| ==> db'.contributions[i].invoice == db.contributions[i].invoice
    ensures forall j: nat :: CarriedBy(db', j, p) <==> CarriedBy(db, j, p)
  {
    forall j: nat ensures CarriedBy(db', j, p) <==> CarriedBy(db, j, p) {
      SameNames(db, db', j, p);
    }
  }
}
