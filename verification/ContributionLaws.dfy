/** What every contribution step keeps: invoices agree with what is owed,
    references are credited once, money is conserved, and the event log replays
    to the stored status. */
module ContributionLaws {
  import opened Rows
  import opened Sums
  import opened Contributions

  // ----- invoices and credits -----

  ghost predicate Credited(credits: seq<Credit>, r: Ref) {
    exists k :: 0 <= k < |credits| && credits[k].ref == Some(r)
  }

  /** A row's invoice was issued for this row; while the row can still be paid,
      it was issued for exactly what is owed now, and was never credited. */
  ghost predicate RowAgrees(c: Contribution, i: nat, invoices: map<Ref, IssuedInvoice>, credits: seq<Credit>) {
    c.invoice.Some? ==>
      && c.invoice.value in invoices
      && invoices[c.invoice.value].contribution == i
      && (Unresolved(c) ==>
            && invoices[c.invoice.value].amount == Outstanding(c)
            && !Credited(credits, c.invoice.value))
  }

  ghost predicate InvoicesAgree(cs: seq<Contribution>, invoices: map<Ref, IssuedInvoice>, credits: seq<Credit>) {
    forall i :: 0 <= i < |cs| ==> RowAgrees(cs[i], i, invoices, credits)
  }

  /** Every credited reference was issued to the row it credited, and appears once. */
  ghost predicate CreditedOnce(credits: seq<Credit>, invoices: map<Ref, IssuedInvoice>) {
    && (forall k :: 0 <= k < |credits| && credits[k].ref.Some? ==>
          && credits[k].ref.value in invoices
          && invoices[credits[k].ref.value].contribution == credits[k].contribution)
    && (forall j, k :: 0 <= j < k < |credits| && credits[j].ref.Some? ==> credits[j].ref != credits[k].ref)
  }

  function CreditRows(credits: seq<Credit>): (r: seq<Posting>)
    ensures |r| == |credits|
    ensures forall k :: 0 <= k < |credits| ==> r[k] == Posting(credits[k].contribution, credits[k].amount)
  {
    seq(|credits|, k requires 0 <= k < |credits| => Posting(credits[k].contribution, credits[k].amount))
  }

  /** What a row has received is the sum of the credits booked on it. */
  ghost predicate Conserved(cs: seq<Contribution>, credits: seq<Credit>) {
    && (forall k :: 0 <= k < |credits| ==> credits[k].contribution < |cs| && credits[k].amount >= 0)
    && (forall i :: 0 <= i < |cs| ==> cs[i].received == Total(CreditRows(credits), i))
  }

  ghost predicate PurseKnown(cs: seq<Contribution>, purses: seq<Purse>) {
    forall i :: 0 <= i < |cs| ==> cs[i].purse < |purses|
  }

  // ----- the event log -----

  predicate EdgeAllowed(from: ContributionStatus, to: ContributionStatus, actor: ActorType) {
    match actor
    case Webhook => (from.Pending? || from.Expired?) && (to.Paid? || to.Flagged?)
    case ReconciliationJob =>
      || ((from.Pending? || from.Expired?) && (to.Paid? || to.Flagged?))
      || (from.Pending? && to.Expired?)
      || (from.Expired? && to.Pending?)
    case RepManual =>
      || ((from.Pending? || from.Expired? || from.Flagged?) && to.PaidManual?)
      || (from.Flagged? && (to.Paid? || to.Pending?))
  }

  /** The status reached by following row i's events from pending along allowed
      edges; None when some event does not start where the previous one ended. */
  function StatusAfter(es: seq<ContributionEvent>, i: nat): Option<ContributionStatus> {
    if es == [] then Some(Pending)
    else
      var e, s := es[|es| - 1], StatusAfter(es[..|es| - 1], i);
      if e.contribution != i then s
      else if s == Some(e.from) && EdgeAllowed(e.from, e.to, e.actor) then Some(e.to)
      else None
  }

  function LastActor(es: seq<ContributionEvent>, i: nat): Option<ActorType> {
    if es == [] then None
    else if es[|es| - 1].contribution == i then Some(es[|es| - 1].actor)
    else LastActor(es[..|es| - 1], i)
  }

  ghost predicate Replays(cs: seq<Contribution>, es: seq<ContributionEvent>) {
    && (forall k :: 0 <= k < |es| ==> es[k].contribution < |cs|)
    && (forall i :: 0 <= i < |cs| ==> StatusAfter(es, i) == Some(cs[i].status))
  }

  /** A paid row that no rep decided on was paid exactly. */
  ghost predicate PaidExactly(cs: seq<Contribution>, es: seq<ContributionEvent>) {
    forall i :: 0 <= i < |cs| && cs[i].status.Paid? && LastActor(es, i) != Some(RepManual) ==>
      cs[i].received == cs[i].expected
  }

  /** The audit log's contribution transitions, in order. */
  function ContributionAudit(audit: seq<AuditEntry>): seq<AuditEntry> {
    if audit == [] then []
    else
      var a := audit[|audit| - 1];
      ContributionAudit(audit[..|audit| - 1]) + if a.ContributionTransition? then [a] else []
  }

  function AuditOfEvent(e: ContributionEvent): AuditEntry {
    ContributionTransition(e.contribution, e.from, e.to, AuditActorOf(e.actor), e.actorId)
  }

  function AuditOfEvents(es: seq<ContributionEvent>): seq<AuditEntry> {
    if es == [] then [] else AuditOfEvents(es[..|es| - 1]) + [AuditOfEvent(es[|es| - 1])]
  }

  /** The audit log repeats the contribution events: same edges, same order, mapped actors. */
  ghost predicate AuditMirrors(audit: seq<AuditEntry>, es: seq<ContributionEvent>) {
    ContributionAudit(audit) == AuditOfEvents(es)
  }

  // ----- the invariant and the progress relation -----

  ghost predicate ContributionsOk(db: Db) {
    && InvoicesAgree(db.contributions, db.invoices, db.credits)
    && CreditedOnce(db.credits, db.invoices)
    && Conserved(db.contributions, db.credits)
    && PurseKnown(db.contributions, db.purses)
    && Replays(db.contributions, db.contributionEvents)
    && PaidExactly(db.contributions, db.contributionEvents)
    && AuditMirrors(db.audit, db.contributionEvents)
  }

  /** How rows may change over any number of steps: a settled row not at all. */
  ghost predicate RowsProgress(cs: seq<Contribution>, cs': seq<Contribution>) {
    && |cs| <= |cs'|
    && forall i :: 0 <= i < |cs| ==>
         && cs'[i].purse == cs[i].purse
         && cs'[i].received >= cs[i].received
         && (Settled(cs[i]) ==> cs'[i] == cs[i])
  }

  ghost predicate InvoicesKept(m: map<Ref, IssuedInvoice>, m': map<Ref, IssuedInvoice>) {
    forall r :: r in m ==> r in m' && m'[r] == m[r]
  }

  /** The histories only grow, and rows progress. */
  ghost predicate ContributionsProgress(db: Db, db': Db) {
    && RowsProgress(db.contributions, db'.contributions)
    && db.credits <= db'.credits
    && db.contributionEvents <= db'.contributionEvents
    && db.audit <= db'.audit
    && InvoicesKept(db.invoices, db'.invoices)
  }

  lemma ContributionsProgressTransitive(a: Db, b: Db, c: Db)
    requires ContributionsProgress(a, b) && ContributionsProgress(b, c)
    ensures ContributionsProgress(a, c)
  {
  }

  /** A step of the contribution side leaves every other table alone, and adds
      only contribution transitions to the audit log. */
  ghost predicate TouchesOnlyContributions(db: Db, db': Db) {
    && db'.groups == db.groups && db'.purses == db.purses && db'.webhookEvents == db.webhookEvents
    && db'.payouts == db.payouts && db'.allocations == db.allocations && db'.payoutEvents == db.payoutEvents
    && db.audit <= db'.audit
    && forall j :: |db.audit| <= j < |db'.audit| ==> db'.audit[j].ContributionTransition?
  }

  // ----- one more event -----

  lemma {:induction false} NoEvents(es: seq<ContributionEvent>, i: nat)
    requires forall k :: 0 <= k < |es| ==> es[k].contribution != i
    ensures StatusAfter(es, i) == Some(Pending)
  {
    if es != [] {
      NoEvents(es[..|es| - 1], i);
    }
  }

  /** A transition along an allowed edge keeps the log replayable and mirrored. */
  lemma TransitionKeepsLog(db: Db, i: nat, c: Contribution, actor: ActorType, actorId: Option<nat>)
    requires i < |db.contributions|
    requires Replays(db.contributions, db.contributionEvents)
    requires PaidExactly(db.contributions, db.contributionEvents)
    requires AuditMirrors(db.audit, db.contributionEvents)
    requires EdgeAllowed(db.contributions[i].status, c.status, actor)
    requires c.status.Paid? && actor != RepManual ==> c.received == c.expected
    ensures var db' := Transition(db, i, c, actor, actorId);
      && Replays(db'.contributions, db'.contributionEvents)
      && PaidExactly(db'.contributions, db'.contributionEvents)
      && AuditMirrors(db'.audit, db'.contributionEvents)
  {
  }

  /** Rewriting a row without touching its status, and what was paid exactly, keeps the log. */
  lemma PutKeepsLog(db: Db, i: nat, c: Contribution)
    requires i < |db.contributions| && c.status == db.contributions[i].status && !c.status.Paid?
    requires Replays(db.contributions, db.contributionEvents)
    requires PaidExactly(db.contributions, db.contributionEvents)
    ensures Replays(Put(db, i, c).contributions, db.contributionEvents)
    ensures PaidExactly(Put(db, i, c).contributions, db.contributionEvents)
  {
  }

  /** One more credit on row i moves only what row i has received. */
  lemma CreditKeepsConserved(cs: seq<Contribution>, credits: seq<Credit>, i: nat, c: Contribution, k: Credit)
    requires i < |cs| && Conserved(cs, credits)
    requires k.contribution == i && k.amount >= 0 && c.received == cs[i].received + k.amount
    ensures Conserved(cs[i := c], credits + [k])
  {
    assert CreditRows(credits + [k]) == CreditRows(credits) + [Posting(i, k.amount)];
    forall j | 0 <= j < |cs| ensures cs[i := c][j].received == Total(CreditRows(credits + [k]), j) {
      TotalPush(CreditRows(credits), Posting(i, k.amount), j);
    }
  }

  // ----- two generic steps -----

  /** A row may move on to c: it was not settled, stays with its purse, and loses no money. */
  predicate MovesOn(old': Contribution, c: Contribution) {
    !Settled(old') && c.purse == old'.purse && c.received >= old'.received
  }

  lemma TransitionProgress(db: Db, i: nat, c: Contribution, actor: ActorType, actorId: Option<nat>)
    requires i < |db.contributions| && MovesOn(db.contributions[i], c)
    ensures ContributionsProgress(db, Transition(db, i, c, actor, actorId))
    ensures TouchesOnlyContributions(db, Transition(db, i, c, actor, actorId))
  {
  }

  /** A transition that books no money. */
  lemma TransitionKeeps(db: Db, i: nat, c: Contribution, actor: ActorType, actorId: Option<nat>)
    requires ContributionsOk(db) && i < |db.contributions| && MovesOn(db.contributions[i], c)
    requires EdgeAllowed(db.contributions[i].status, c.status, actor)
    requires c.status.Paid? ==> actor.RepManual?
    requires c.received == db.contributions[i].received && RowAgrees(c, i, db.invoices, db.credits)
    ensures ContributionsOk(Transition(db, i, c, actor, actorId))
    ensures ContributionsProgress(db, Transition(db, i, c, actor, actorId))
    ensures TouchesOnlyContributions(db, Transition(db, i, c, actor, actorId))
  {
    TransitionKeepsLog(db, i, c, actor, actorId);
    TransitionProgress(db, i, c, actor, actorId);
  }

  /** A transition that books one credit on its row and makes the row unpayable. */
  lemma CreditedTransitionKeeps(db: Db, i: nat, c: Contribution, k: Credit, actor: ActorType, actorId: Option<nat>)
    requires ContributionsOk(db) && i < |db.contributions| && MovesOn(db.contributions[i], c)
    requires EdgeAllowed(db.contributions[i].status, c.status, actor)
    requires c.status.Paid? ==> c.received == c.expected
    requires k.contribution == i && k.amount >= 0 && c.received == db.contributions[i].received + k.amount
    requires c.invoice == db.contributions[i].invoice && !Unresolved(c)
    requires k.ref.None? || (k.ref == c.invoice && Unresolved(db.contributions[i]))
    ensures var db' := Transition(db.(credits := db.credits + [k]), i, c, actor, actorId);
      ContributionsOk(db') && ContributionsProgress(db, db') && TouchesOnlyContributions(db, db')
  {
    var booked := db.(credits := db.credits + [k]);
    TransitionKeepsLog(booked, i, c, actor, actorId);
    CreditKeepsConserved(db.contributions, db.credits, i, c, k);
    CreditKeepsInvoices(db, i, c, k);
    TransitionProgress(booked, i, c, actor, actorId);
  }

  /** Crediting row i, whose new status is final for its invoice, leaves every
      other unresolved row's invoice uncredited. */
  lemma CreditKeepsInvoices(db: Db, i: nat, c: Contribution, k: Credit)
    requires i < |db.contributions|
    requires InvoicesAgree(db.contributions, db.invoices, db.credits) && CreditedOnce(db.credits, db.invoices)
    requires k.contribution == i && c.invoice == db.contributions[i].invoice && !Unresolved(c)
    requires k.ref.None? || (k.ref == c.invoice && Unresolved(db.contributions[i]))
    ensures InvoicesAgree(db.contributions[i := c], db.invoices, db.credits + [k])
    ensures CreditedOnce(db.credits + [k], db.invoices)
  {
  }

  // ----- each step -----

  lemma ExpireKeeps(db: Db, i: nat, now: Time)
    requires i < |db.contributions| && ContributionsOk(db)
    ensures ContributionsOk(ExpireIfNeeded(db, i, now))
    ensures ContributionsProgress(db, ExpireIfNeeded(db, i, now))
    ensures TouchesOnlyContributions(db, ExpireIfNeeded(db, i, now))
  {
    var c := db.contributions[i];
    if Lapsed(c, now) {
      assert RowAgrees(c, i, db.invoices, db.credits);
      TransitionKeeps(db, i, ExpireRow(c, now), ReconciliationJob, None);
    }
  }

  /** Booking a fresh invoice for row i with the provider disturbs no row. */
  lemma FreshInvoiceKeeps(db: Db, i: nat, ref: Ref)
    requires ContributionsOk(db) && i < |db.contributions| && ref !in db.invoices
    ensures var issued := db.(invoices := db.invoices[ref := IssuedInvoice(i, Outstanding(db.contributions[i]))]);
      ContributionsOk(issued) && ContributionsProgress(db, issued) && TouchesOnlyContributions(db, issued)
      && !Credited(db.credits, ref)
  {
  }

  /** Rewriting a payable row around its own live invoice. */
  lemma PutKeeps(db: Db, i: nat, c: Contribution)
    requires ContributionsOk(db) && i < |db.contributions| && MovesOn(db.contributions[i], c)
    requires c.status == db.contributions[i].status && c.received == db.contributions[i].received
    requires RowAgrees(c, i, db.invoices, db.credits)
    ensures ContributionsOk(Put(db, i, c))
    ensures ContributionsProgress(db, Put(db, i, c))
    ensures TouchesOnlyContributions(db, Put(db, i, c))
  {
    PutKeepsLog(db, i, c);
  }

  lemma RecordInvoiceKeeps(db: Db, i: nat, inv: ProviderInvoice, fee: Option<nat>, now: Time)
    requires i < |db.contributions| && ContributionsOk(db)
    requires Unresolved(db.contributions[i]) && inv.ref !in db.invoices
    ensures ContributionsOk(RecordInvoice(db, i, inv, fee, now))
    ensures ContributionsProgress(db, RecordInvoice(db, i, inv, fee, now))
    ensures TouchesOnlyContributions(db, RecordInvoice(db, i, inv, fee, now))
  {
    var c := db.contributions[i];
    var c' := InvoicedRow(c, inv, fee, now);
    var issued := db.(invoices := db.invoices[inv.ref := IssuedInvoice(i, Outstanding(c))]);
    FreshInvoiceKeeps(db, i, inv.ref);
    if c.status.Expired? {
      TransitionKeeps(issued, i, c', ReconciliationJob, None);
    } else {
      PutKeeps(issued, i, c');
    }
    ContributionsProgressTransitive(db, issued, RecordInvoice(db, i, inv, fee, now));
  }

  lemma ContributionsUntouched(db: Db)
    ensures ContributionsProgress(db, db) && TouchesOnlyContributions(db, db)
  {
  }

  /** Any answer to an invoice request keeps the invariant. */
  lemma GenerateInvoiceKeeps(db: Db, i: nat, answer: Option<ProviderInvoice>, fee: Option<nat>, now: Time)
    requires ContributionsOk(db)
    requires answer.Some? ==> answer.value.ref !in db.invoices
    ensures ContributionsOk(GenerateInvoice(db, i, answer, fee, now).0)
    ensures ContributionsProgress(db, GenerateInvoice(db, i, answer, fee, now).0)
    ensures TouchesOnlyContributions(db, GenerateInvoice(db, i, answer, fee, now).0)
  {
    hide ContributionsOk, ContributionsProgress, RecordInvoice;
    ContributionsUntouched(db);
    if i < |db.contributions| {
      ExpireKeeps(db, i, now);
      var db1 := ExpireIfNeeded(db, i, now);
      if answer.Some? && Unresolved(db1.contributions[i]) {
        RecordInvoiceKeeps(db1, i, answer.value, fee, now);
        ContributionsProgressTransitive(db, db1, RecordInvoice(db1, i, answer.value, fee, now));
      }
    }
  }

  lemma ConfirmKeeps(db: Db, i: nat, amount: nat, paidOn: Option<Time>, actor: ActorType, now: Time)
    requires i < |db.contributions| && ContributionsOk(db) && actor != RepManual
    ensures ContributionsOk(ConfirmPayment(db, i, amount, paidOn, actor, now).0)
    ensures ContributionsProgress(db, ConfirmPayment(db, i, amount, paidOn, actor, now).0)
    ensures TouchesOnlyContributions(db, ConfirmPayment(db, i, amount, paidOn, actor, now).0)
  {
    var c := db.contributions[i];
    if Unresolved(c) {
      CreditedTransitionKeeps(db, i, ConfirmRow(c, amount, paidOn, now), Credit(i, c.invoice, amount), actor, None);
    }
  }

  lemma MarkManualKeeps(db: Db, i: nat, admin: Admin, amount: Kobo, now: Time)
    requires ContributionsOk(db)
    ensures ContributionsOk(MarkManual(db, i, admin, amount, now).0)
    ensures ContributionsProgress(db, MarkManual(db, i, admin, amount, now).0)
    ensures TouchesOnlyContributions(db, MarkManual(db, i, admin, amount, now).0)
  {
    if amount > 0 && i < |db.contributions| && !Settled(db.contributions[i]) {
      var c := db.contributions[i];
      CreditedTransitionKeeps(db, i, ManualRow(c, amount, now), Credit(i, None, amount), RepManual, Some(admin.id));
    }
  }

  lemma ResolveFlagKeeps(db: Db, i: nat, admin: Admin, resolution: Resolution, now: Time)
    requires ContributionsOk(db)
    ensures ContributionsOk(ResolveFlag(db, i, admin, resolution, now).0)
    ensures ContributionsProgress(db, ResolveFlag(db, i, admin, resolution, now).0)
    ensures TouchesOnlyContributions(db, ResolveFlag(db, i, admin, resolution, now).0)
  {
    if i < |db.contributions| && db.contributions[i].status.Flagged? {
      var c := db.contributions[i];
      assert RowAgrees(c, i, db.invoices, db.credits);
      if resolution.AcceptPartial? {
        TransitionKeeps(db, i, c.(status := Paid, paidAt := Some(now), updatedAt := now), RepManual, Some(admin.id));
      } else if resolution.RequestTopup? {
        TransitionKeeps(db, i, ClearInvoice(c).(status := Pending, updatedAt := now), RepManual, Some(admin.id));
      }
    }
  }

  lemma EditKeeps(db: Db, purse: nat, amount: Kobo, now: Time)
    requires ContributionsOk(db)
    ensures ContributionsOk(UpdateAmountForPending(db, purse, amount, now))
    ensures ContributionsProgress(db, UpdateAmountForPending(db, purse, amount, now))
    ensures TouchesOnlyContributions(db, UpdateAmountForPending(db, purse, amount, now))
  {
    var cs' := EditRows(db.contributions, purse, amount, now);
    forall j | 0 <= j < |cs'|
      ensures RowAgrees(cs'[j], j, db.invoices, db.credits) && cs'[j].received == Total(CreditRows(db.credits), j)
    {
      assert RowAgrees(db.contributions[j], j, db.invoices, db.credits);
    }
  }

  lemma EnrolKeeps(db: Db, purse: nat, amount: Kobo, now: Time)
    requires ContributionsOk(db) && purse < |db.purses|
    ensures var db' := db.(contributions := db.contributions + [NewContribution(purse, amount, now)]);
      ContributionsOk(db') && ContributionsProgress(db, db') && TouchesOnlyContributions(db, db')
  {
    var n := |db.contributions|;
    NoEvents(db.contributionEvents, n);
    SumZero(Column(CreditRows(db.credits), n));
  }

  lemma {:induction false} ContributionAuditFrame(audit: seq<AuditEntry>, audit': seq<AuditEntry>)
    requires audit <= audit'
    requires forall j :: |audit| <= j < |audit'| ==> !audit'[j].ContributionTransition?
    ensures ContributionAudit(audit') == ContributionAudit(audit)
  {
    if audit' != audit {
      ContributionAuditFrame(audit, audit'[..|audit'| - 1]);
    }
  }

  // ----- what the invariant means for a payment -----

  /** A payment through a live invoice lands PAID exactly when it is the amount
      the invoice was issued for; any other amount lands FLAGGED. */
  lemma MatchedPaymentLandsPaid(db: Db, i: nat, amount: nat, paidOn: Option<Time>, actor: ActorType, now: Time)
    requires ContributionsOk(db) && i < |db.contributions|
    requires Unresolved(db.contributions[i]) && db.contributions[i].invoice.Some?
    ensures db.contributions[i].invoice.value in db.invoices
    ensures var c' := ConfirmPayment(db, i, amount, paidOn, actor, now).0.contributions[i];
      var issued := db.invoices[db.contributions[i].invoice.value].amount;
      && (c'.status.Paid? <==> amount == issued)
      && (c'.status.Flagged? <==> amount != issued)
      && (c'.status.Paid? ==> c'.received == c'.expected)
  {
  }

  /** No two rows ever hold the same invoice reference. */
  lemma InvoicesUnshared(db: Db, i: nat, j: nat)
    requires ContributionsOk(db) && i < j < |db.contributions|
    requires db.contributions[i].invoice.Some?
    ensures db.contributions[i].invoice != db.contributions[j].invoice
  {
  }
}
