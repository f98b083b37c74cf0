/** The reconciliation job: every unresolved contribution with an invoice is
    checked against the provider's own record of the payment. */
module Jobs {
  import opened Rows
  import opened Contributions

  const PENDING_THRESHOLD: Time := 60 * 60

  /** Which rows a run looks at: one purse's, all of them, or those left alone for an hour. */
  datatype Mode = OnePurse(purse: nat) | Everything | Scheduled

  /** What the provider answers for a reference: a payment of some amount. A
      reference without an answer is unpaid, unknown, or its query failed. */
  datatype PaidStatus = PaidStatus(amount: nat, paidOn: Option<Time>)

  type Answers = map<Ref, PaidStatus>

  predicate Selected(c: Contribution, mode: Mode, now: Time) {
    && Unresolved(c)
    && c.invoice.Some?
    && match mode
       case OnePurse(p) => c.purse == p
       case Everything => true
       case Scheduled => c.updatedAt <= now - PENDING_THRESHOLD
  }

  /** The selected rows, each once, in whatever order the database returns them. */
  ghost predicate IsSelection(cs: seq<Contribution>, mode: Mode, now: Time, rows: seq<nat>) {
    && (forall x :: 0 <= x < |rows| ==> rows[x] < |cs| && Selected(cs[rows[x]], mode, now))
    && (forall x, y :: 0 <= x < y < |rows| ==> rows[x] != rows[y])
    && (forall i :: 0 <= i < |cs| && Selected(cs[i], mode, now) ==> i in rows)
  }

  function ReconcileOne(db: Db, i: nat, answers: Answers, now: Time): (Db, bool)
    requires i < |db.contributions|
  {
    var c := db.contributions[i];
    if c.invoice.Some? && c.invoice.value in answers then
      var paid := answers[c.invoice.value];
      ConfirmPayment(db, i, paid.amount, paid.paidOn, ReconciliationJob, now)
    else (ExpireIfNeeded(db, i, now), false)
  }

  /** The state after the rows are handled one by one, and how many were updated. */
  function Reconcile(db: Db, rows: seq<nat>, answers: Answers, now: Time): (r: (Db, nat))
    requires forall x :: 0 <= x < |rows| ==> rows[x] < |db.contributions|
    ensures |r.0.contributions| == |db.contributions|
  {
    if rows == [] then (db, 0)
    else
      var n := |rows| - 1;
      var (before, updated) := Reconcile(db, rows[..n], answers, now);
      var (after, hit) := ReconcileOne(before, rows[n], answers, now);
      (after, if hit then updated + 1 else updated)
  }
}
