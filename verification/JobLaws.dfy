/** Reconciliation is row-local: it does not depend on row order, a second run
    does nothing, and it commutes with the webhook that reports the same payment. */
module JobLaws {
  import opened Rows
  import opened Contributions
  import opened Jobs
  import Webhooks

  predicate Answered(c: Contribution, answers: Answers) {
    c.invoice.Some? && c.invoice.value in answers
  }

  /** What reconciliation does to one row. */
  function RowAfter(c: Contribution, answers: Answers, now: Time): Contribution {
    if !Answered(c, answers) then ExpireRow(c, now)
    else if Unresolved(c) then ConfirmRow(c, answers[c.invoice.value].amount, answers[c.invoice.value].paidOn, now)
    else c
  }

  /** Row i's own events. */
  function EventsFor(es: seq<ContributionEvent>, i: nat): seq<ContributionEvent> {
    if es == [] then []
    else
      var front, e := EventsFor(es[..|es| - 1], i), es[|es| - 1];
      if e.contribution == i then front + [e] else front
  }

  /** The events reconciliation adds to row i: one if its status changes. */
  function NewEvents(i: nat, c: Contribution, answers: Answers, now: Time): seq<ContributionEvent> {
    var c' := RowAfter(c, answers, now);
    if c'.status == c.status then []
    else [ContributionEvent(i, c.status, c'.status, ReconciliationJob, None)]
  }

  ghost predicate Distinct(rows: seq<nat>) {
    forall x, y :: 0 <= x < y < |rows| ==> rows[x] != rows[y]
  }

  /** Handling one row changes that row, and its events, as RowAfter says; nothing else. */
  lemma OneRow(db: Db, i: nat, answers: Answers, now: Time)
    requires i < |db.contributions|
    ensures var (db', hit) := ReconcileOne(db, i, answers, now);
      var c := db.contributions[i];
      && db'.contributions == db.contributions[i := RowAfter(c, answers, now)]
      && (hit <==> Answered(c, answers) && Unresolved(c))
      && forall j: nat :: EventsFor(db'.contributionEvents, j) ==
           if i == j then EventsFor(db.contributionEvents, j) + NewEvents(i, c, answers, now)
           else EventsFor(db.contributionEvents, j)
  {
  }

  /** The rows that a run finds paid. */
  function Hits(cs: seq<Contribution>, rows: seq<nat>, answers: Answers): set<nat> {
    set i | i in rows && i < |cs| && Answered(cs[i], answers) && Unresolved(cs[i])
  }

  /** Each of the rows has been handled once, and no other row has changed. */
  ghost predicate RowsHandled(cs: seq<Contribution>, cs': seq<Contribution>, rows: seq<nat>, answers: Answers, now: Time) {
    && |cs'| == |cs|
    && (forall i :: 0 <= i < |cs| && i in rows ==> cs'[i] == RowAfter(cs[i], answers, now))
    && (forall i :: 0 <= i < |cs| && i !in rows ==> cs'[i] == cs[i])
  }

  /** Row i's events after a run that handled the rows. */
  function HandledEvents(cs: seq<Contribution>, es: seq<ContributionEvent>, rows: seq<nat>, answers: Answers, now: Time, i: nat)
    : seq<ContributionEvent>
    requires i < |cs|
  {
    if i in rows then EventsFor(es, i) + NewEvents(i, cs[i], answers, now) else EventsFor(es, i)
  }

  ghost predicate EventsHandled(db: Db, es: seq<ContributionEvent>, rows: seq<nat>, answers: Answers, now: Time) {
    forall i :: 0 <= i < |db.contributions| ==>
      EventsFor(es, i) == HandledEvents(db.contributions, db.contributionEvents, rows, answers, now, i)
  }

  ghost predicate RowsValid(cs: seq<Contribution>, rows: seq<nat>) {
    Distinct(rows) && forall x :: 0 <= x < |rows| ==> rows[x] < |cs|
  }

  lemma HandleOneMore(cs: seq<Contribution>, cs': seq<Contribution>, rows: seq<nat>, r: nat, answers: Answers, now: Time)
    requires RowsHandled(cs, cs', rows, answers, now) && r < |cs| && r !in rows
    ensures RowsHandled(cs, cs'[r := RowAfter(cs'[r], answers, now)], rows + [r], answers, now)
  {
  }

  lemma HitOneMore(cs: seq<Contribution>, rows: seq<nat>, r: nat, answers: Answers)
    requires r < |cs| && r !in rows
    ensures |Hits(cs, rows + [r], answers)| ==
      |Hits(cs, rows, answers)| + if Answered(cs[r], answers) && Unresolved(cs[r]) then 1 else 0
  {
    var all, some := Hits(cs, rows + [r], answers), Hits(cs, rows, answers);
    if Answered(cs[r], answers) && Unresolved(cs[r]) {
      assert all == some + {r};
    } else {
      assert all == some;
    }
  }

  /** A run applies RowAfter to each of its rows once, and counts the paid ones. */
  lemma {:induction false} RunIsPointwise(db: Db, rows: seq<nat>, answers: Answers, now: Time)
    requires RowsValid(db.contributions, rows)
    ensures RowsHandled(db.contributions, Reconcile(db, rows, answers, now).0.contributions, rows, answers, now)
    ensures Reconcile(db, rows, answers, now).1 == |Hits(db.contributions, rows, answers)|
  {
    if rows == [] {
      assert Hits(db.contributions, rows, answers) == {};
    } else {
      var front, r := rows[..|rows| - 1], rows[|rows| - 1];
      RunIsPointwise(db, front, answers, now);
      var before := Reconcile(db, front, answers, now).0;
      OneRow(before, r, answers, now);
      HandleOneMore(db.contributions, before.contributions, front, r, answers, now);
      HitOneMore(db.contributions, front, r, answers);
      assert rows == front + [r];
    }
  }

  lemma LogOneMore(db: Db, before: Db, rows: seq<nat>, r: nat, answers: Answers, now: Time)
    requires r < |db.contributions| && r !in rows
    requires RowsHandled(db.contributions, before.contributions, rows, answers, now)
    requires EventsHandled(db, before.contributionEvents, rows, answers, now)
    ensures EventsHandled(db, ReconcileOne(before, r, answers, now).0.contributionEvents, rows + [r], answers, now)
  {
    var after := ReconcileOne(before, r, answers, now).0.contributionEvents;
    OneRow(before, r, answers, now);
    forall i | 0 <= i < |db.contributions|
      ensures EventsFor(after, i) == HandledEvents(db.contributions, db.contributionEvents, rows + [r], answers, now, i)
    {
      assert EventsFor(before.contributionEvents, i) ==
        HandledEvents(db.contributions, db.contributionEvents, rows, answers, now, i);
    }
  }

  lemma {:induction false} RunLogsPointwise(db: Db, rows: seq<nat>, answers: Answers, now: Time)
    requires RowsValid(db.contributions, rows)
    ensures EventsHandled(db, Reconcile(db, rows, answers, now).0.contributionEvents, rows, answers, now)
  {
    if rows != [] {
      var front, r := rows[..|rows| - 1], rows[|rows| - 1];
      RunLogsPointwise(db, front, answers, now);
      RunIsPointwise(db, front, answers, now);
      LogOneMore(db, Reconcile(db, front, answers, now).0, front, r, answers, now);
      assert rows == front + [r];
    }
  }

  /** The result does not depend on the order in which the database returns the rows:
      same rows, same events of every row, same count. */
  lemma OrderDoesNotMatter(db: Db, mode: Mode, rows: seq<nat>, rows': seq<nat>, answers: Answers, now: Time)
    requires IsSelection(db.contributions, mode, now, rows) && IsSelection(db.contributions, mode, now, rows')
    ensures var (a, n) := Reconcile(db, rows, answers, now);
      var (b, n') := Reconcile(db, rows', answers, now);
      && a.contributions == b.contributions
      && n == n'
      && forall i :: 0 <= i < |db.contributions| ==> EventsFor(a.contributionEvents, i) == EventsFor(b.contributionEvents, i)
  {
    RunIsPointwise(db, rows, answers, now);
    RunIsPointwise(db, rows', answers, now);
    RunLogsPointwise(db, rows, answers, now);
    RunLogsPointwise(db, rows', answers, now);
    SameSelection(db.contributions, mode, now, rows, rows');
    assert Hits(db.contributions, rows, answers) == Hits(db.contributions, rows', answers);
  }

  lemma SameSelection(cs: seq<Contribution>, mode: Mode, now: Time, rows: seq<nat>, rows': seq<nat>)
    requires IsSelection(cs, mode, now, rows) && IsSelection(cs, mode, now, rows')
    ensures forall i :: i in rows <==> i in rows'
  {
  }

  /** What a run leaves selected, it would leave alone again. */
  lemma StillSelectedIsSettled(db: Db, mode: Mode, rows: seq<nat>, answers: Answers, now: Time, i: nat)
    requires IsSelection(db.contributions, mode, now, rows)
    requires i < |db.contributions|
    requires Selected(Reconcile(db, rows, answers, now).0.contributions[i], mode, now)
    ensures var db' := Reconcile(db, rows, answers, now).0; ReconcileOne(db', i, answers, now) == (db', false)
  {
    RunIsPointwise(db, rows, answers, now);
  }

  lemma {:induction false} IdleRun(db: Db, rows: seq<nat>, answers: Answers, now: Time)
    requires forall x :: 0 <= x < |rows| ==>
      rows[x] < |db.contributions| && ReconcileOne(db, rows[x], answers, now) == (db, false)
    ensures Reconcile(db, rows, answers, now) == (db, 0)
  {
    if rows != [] {
      IdleRun(db, rows[..|rows| - 1], answers, now);
    }
  }

  /** At the same clock and with the same answers, a second run updates nothing and
      leaves the whole database as it was. */
  lemma SecondRunIsIdle(db: Db, mode: Mode, rows: seq<nat>, rows': seq<nat>, answers: Answers, now: Time)
    requires IsSelection(db.contributions, mode, now, rows)
    requires IsSelection(Reconcile(db, rows, answers, now).0.contributions, mode, now, rows')
    ensures var db' := Reconcile(db, rows, answers, now).0; Reconcile(db', rows', answers, now) == (db', 0)
  {
    var db' := Reconcile(db, rows, answers, now).0;
    forall x | 0 <= x < |rows'| ensures ReconcileOne(db', rows'[x], answers, now) == (db', false) {
      StillSelectedIsSettled(db, mode, rows, answers, now, rows'[x]);
    }
    IdleRun(db', rows', answers, now);
  }

  // ----- one payment, two reporters -----

  /** The rows a collection event would credit. */
  function Named(db: Db, e: nat): seq<nat>
    requires e < |db.webhookEvents| && db.webhookEvents[e].payload.Collection?
  {
    var p := db.webhookEvents[e].payload;
    Webhooks.Matching(db.contributions, Webhooks.RefsOf(p.paymentRef, p.transactionRef))
  }

  /** What processing collection event e does to row i. */
  function RowAfterWebhook(db: Db, e: nat, i: nat, now: Time): Contribution
    requires e < |db.webhookEvents| && db.webhookEvents[e].payload.Collection?
    requires i < |db.contributions|
  {
    var p := db.webhookEvents[e].payload;
    if Named(db, e) == [i] && Unresolved(db.contributions[i])
    then ConfirmRow(db.contributions[i], p.amount, p.paidOn, now)
    else db.contributions[i]
  }

  lemma WebhookIsPointwise(db: Db, e: nat, now: Time)
    requires e < |db.webhookEvents| && db.webhookEvents[e].payload.Collection?
    ensures var db' := Webhooks.ProcessCollection(db, e, now).0;
      && |db'.contributions| == |db.contributions|
      && |db'.webhookEvents| == |db.webhookEvents| && db'.webhookEvents[e].payload == db.webhookEvents[e].payload
      && forall i :: 0 <= i < |db.contributions| ==> db'.contributions[i] == RowAfterWebhook(db, e, i, now)
  {
  }

  lemma {:induction false} MatchingDependsOnInvoices(cs: seq<Contribution>, cs': seq<Contribution>, refs: set<Ref>)
    requires |cs| == |cs'| && forall i :: 0 <= i < |cs| ==> cs'[i].invoice == cs[i].invoice
    ensures Webhooks.Matching(cs, refs) == Webhooks.Matching(cs', refs)
  {
    if cs != [] {
      MatchingDependsOnInvoices(cs[..|cs| - 1], cs'[..|cs| - 1], refs);
    }
  }

  lemma {:induction false} ReconcileKeepsWebhooks(db: Db, rows: seq<nat>, answers: Answers, now: Time)
    requires forall x :: 0 <= x < |rows| ==> rows[x] < |db.contributions|
    ensures Reconcile(db, rows, answers, now).0.webhookEvents == db.webhookEvents
  {
    if rows != [] {
      ReconcileKeepsWebhooks(db, rows[..|rows| - 1], answers, now);
    }
  }

  /** The provider's answers do not contradict the event: where both name a
      reference, they name the same amount. */
  ghost predicate Consistent(db: Db, e: nat, answers: Answers)
    requires e < |db.webhookEvents| && db.webhookEvents[e].payload.Collection?
  {
    var p := db.webhookEvents[e].payload;
    forall r :: r in Webhooks.RefsOf(p.paymentRef, p.transactionRef) && r in answers ==> answers[r].amount == p.amount
  }

  predicate SameOutcome(c: Contribution, d: Contribution) {
    c.status == d.status && c.received == d.received && c.expected == d.expected && c.invoice == d.invoice
  }

  lemma InSelection(cs: seq<Contribution>, mode: Mode, now: Time, rows: seq<nat>, i: nat)
    requires IsSelection(cs, mode, now, rows) && i < |cs|
    ensures i in rows <==> Selected(cs[i], mode, now)
  {
  }

  /** What the job makes of a row it may or may not have selected. */
  function RowAfterJob(c: Contribution, mode: Mode, answers: Answers, now: Time): Contribution {
    if Selected(c, mode, now) then RowAfter(c, answers, now) else c
  }

  /** A run leaves on every row what the job makes of that row. */
  lemma JobRows(db: Db, mode: Mode, rows: seq<nat>, answers: Answers, now: Time)
    requires IsSelection(db.contributions, mode, now, rows)
    ensures var cs := Reconcile(db, rows, answers, now).0.contributions;
      && |cs| == |db.contributions|
      && forall i :: 0 <= i < |cs| ==> cs[i] == RowAfterJob(db.contributions[i], mode, answers, now)
  {
    RunIsPointwise(db, rows, answers, now);
    forall i | 0 <= i < |db.contributions|
      ensures Reconcile(db, rows, answers, now).0.contributions[i] == RowAfterJob(db.contributions[i], mode, answers, now)
    {
      InSelection(db.contributions, mode, now, rows, i);
    }
  }

  lemma WebhookFirst(db: Db, e: nat, mode: Mode, rows: seq<nat>, answers: Answers, now: Time)
    requires e < |db.webhookEvents| && db.webhookEvents[e].payload.Collection?
    requires IsSelection(Webhooks.ProcessCollection(db, e, now).0.contributions, mode, now, rows)
    ensures var cs := Reconcile(Webhooks.ProcessCollection(db, e, now).0, rows, answers, now).0.contributions;
      && |cs| == |db.contributions|
      && forall i :: 0 <= i < |cs| ==> cs[i] == RowAfterJob(RowAfterWebhook(db, e, i, now), mode, answers, now)
  {
    var hooked := Webhooks.ProcessCollection(db, e, now).0;
    WebhookIsPointwise(db, e, now);
    JobRows(hooked, mode, rows, answers, now);
  }

  lemma JobKeepsNamed(db: Db, e: nat, mode: Mode, rows: seq<nat>, answers: Answers, now: Time)
    requires e < |db.webhookEvents| && db.webhookEvents[e].payload.Collection?
    requires IsSelection(db.contributions, mode, now, rows)
    ensures var swept := Reconcile(db, rows, answers, now).0;
      swept.webhookEvents == db.webhookEvents && Named(swept, e) == Named(db, e)
  {
    var swept := Reconcile(db, rows, answers, now).0;
    var p := db.webhookEvents[e].payload;
    JobRows(db, mode, rows, answers, now);
    ReconcileKeepsWebhooks(db, rows, answers, now);
    MatchingDependsOnInvoices(db.contributions, swept.contributions, Webhooks.RefsOf(p.paymentRef, p.transactionRef));
  }

  lemma JobFirst(db: Db, e: nat, mode: Mode, rows: seq<nat>, answers: Answers, now: Time)
    requires e < |db.webhookEvents| && db.webhookEvents[e].payload.Collection?
    requires IsSelection(db.contributions, mode, now, rows)
    ensures var cs := Webhooks.ProcessCollection(Reconcile(db, rows, answers, now).0, e, now).0.contributions;
      && |cs| == |db.contributions|
      && forall i :: 0 <= i < |cs| ==>
           var swept := RowAfterJob(db.contributions[i], mode, answers, now);
           var p := db.webhookEvents[e].payload;
           cs[i] == if Named(db, e) == [i] && Unresolved(swept) then ConfirmRow(swept, p.amount, p.paidOn, now) else swept
  {
    JobRows(db, mode, rows, answers, now);
    JobKeepsNamed(db, e, mode, rows, answers, now);
    WebhookIsPointwise(Reconcile(db, rows, answers, now).0, e, now);
  }

  /** Whether the webhook or the reconciliation job comes first makes no difference
      to the status or the amounts of any contribution. */
  lemma WebhookAndReconciliationCommute(db: Db, e: nat, mode: Mode, rows: seq<nat>, rows': seq<nat>, answers: Answers, now: Time)
    requires e < |db.webhookEvents| && db.webhookEvents[e].payload.Collection?
    requires Consistent(db, e, answers)
    requires IsSelection(Webhooks.ProcessCollection(db, e, now).0.contributions, mode, now, rows)
    requires IsSelection(db.contributions, mode, now, rows')
    ensures var webhookFirst := Reconcile(Webhooks.ProcessCollection(db, e, now).0, rows, answers, now).0;
      var jobFirst := Webhooks.ProcessCollection(Reconcile(db, rows', answers, now).0, e, now).0;
      && |webhookFirst.contributions| == |jobFirst.contributions| == |db.contributions|
      && forall i :: 0 <= i < |db.contributions| ==> SameOutcome(webhookFirst.contributions[i], jobFirst.contributions[i])
  {
    WebhookFirst(db, e, mode, rows, answers, now);
    JobFirst(db, e, mode, rows', answers, now);
    forall i | 0 <= i < |db.contributions|
      ensures SameOutcome(
        Reconcile(Webhooks.ProcessCollection(db, e, now).0, rows, answers, now).0.contributions[i],
        Webhooks.ProcessCollection(Reconcile(db, rows', answers, now).0, e, now).0.contributions[i])
    {
      RowsCommute(db, e, mode, answers, now, i);
    }
  }

  /** The same, for one row. */
  lemma RowsCommute(db: Db, e: nat, mode: Mode, answers: Answers, now: Time, i: nat)
    requires e < |db.webhookEvents| && db.webhookEvents[e].payload.Collection?
    requires Consistent(db, e, answers) && i < |db.contributions|
    ensures var swept := RowAfterJob(db.contributions[i], mode, answers, now);
      var p := db.webhookEvents[e].payload;
      SameOutcome(
        RowAfterJob(RowAfterWebhook(db, e, i, now), mode, answers, now),
        if Named(db, e) == [i] && Unresolved(swept) then ConfirmRow(swept, p.amount, p.paidOn, now) else swept)
  {
    var p := db.webhookEvents[e].payload;
    if Named(db, e) == [i] {
      assert Named(db, e)[0] == i;
      assert Webhooks.InvoiceIn(db.contributions[i], Webhooks.RefsOf(p.paymentRef, p.transactionRef));
    }
  }
}
