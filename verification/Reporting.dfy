/** What the screens show about a purse's contributions: aggregates from grouped
    queries, row-by-row badges, filtered lists and pages. All of them are tied
    here to the rows themselves. */
module Reporting {
  import opened Rows
  import opened Sums
  import opened FixedPrecision
  import opened Sweep
  import Payouts

  // ----- counting rows directly -----

  function OfPurse(cs: seq<Contribution>, purse: nat): seq<Contribution> {
    if cs == [] then []
    else
      var front := OfPurse(cs[..|cs| - 1], purse);
      if cs[|cs| - 1].purse == purse then front + [cs[|cs| - 1]] else front
  }

  function CountOf(rows: seq<Contribution>, status: ContributionStatus): nat {
    if rows == [] then 0
    else
      var front := CountOf(rows[..|rows| - 1], status);
      if rows[|rows| - 1].status == status then front + 1 else front
  }

  function ReceivedOf(rows: seq<Contribution>, status: ContributionStatus): Kobo {
    if rows == [] then 0
    else
      var front := ReceivedOf(rows[..|rows| - 1], status);
      if rows[|rows| - 1].status == status then front + rows[|rows| - 1].received else front
  }

  // ----- badges -----

  datatype Badge = ClosedBadge | StatusBadge(status: ContributionStatus)

  function DisplayStatus(status: ContributionStatus, purse: PurseStatus): Badge {
    if purse.Closed? && status.Pending? then ClosedBadge
    else if status.Expired? && purse.Open? then StatusBadge(Pending)
    else StatusBadge(status)
  }

  /** The rows that show this badge. */
  function CountShown(rows: seq<Contribution>, purse: PurseStatus, badge: Badge): nat {
    if rows == [] then 0
    else
      var front := CountShown(rows[..|rows| - 1], purse, badge);
      if DisplayStatus(rows[|rows| - 1].status, purse) == badge then front + 1 else front
  }

  lemma {:induction false} ShownCounts(rows: seq<Contribution>, purse: PurseStatus)
    ensures CountShown(rows, purse, StatusBadge(Pending)) ==
      (if purse.Closed? then 0 else CountOf(rows, Pending)) + if purse.Open? then CountOf(rows, Expired) else 0
    ensures CountShown(rows, purse, StatusBadge(Expired)) == if purse.Open? then 0 else CountOf(rows, Expired)
    ensures CountShown(rows, purse, ClosedBadge) == if purse.Closed? then CountOf(rows, Pending) else 0
    ensures forall s: ContributionStatus :: !s.Pending? && !s.Expired? ==>
      CountShown(rows, purse, StatusBadge(s)) == CountOf(rows, s)
  {
    if rows != [] {
      ShownCounts(rows[..|rows| - 1], purse);
    }
  }

  // ----- the summary of one purse -----

  /** One row of a query grouped by purse and status. */
  datatype Group = Group(purse: nat, status: ContributionStatus, count: nat, collected: Kobo)

  predicate GroupAgrees(cs: seq<Contribution>, g: Group) {
    var rows := OfPurse(cs, g.purse);
    g.count > 0 && g.count == CountOf(rows, g.status) && g.collected == ReceivedOf(rows, g.status)
  }

  ghost predicate HasGroup(groups: seq<Group>, purse: nat, status: ContributionStatus) {
    exists i :: 0 <= i < |groups| && groups[i].purse == purse && groups[i].status == status
  }

  /** What the database returns: one row, in no particular order, for every
      purse asked about and every status that one of its contributions has. */
  ghost predicate IsGroupBy(cs: seq<Contribution>, purses: set<nat>, groups: seq<Group>) {
    && (forall i :: 0 <= i < |groups| ==> groups[i].purse in purses && GroupAgrees(cs, groups[i]))
    && (forall i, j :: 0 <= i < j < |groups| ==> groups[i].purse != groups[j].purse || groups[i].status != groups[j].status)
    && (forall p, s {:trigger HasGroup(groups, p, s)} ::
          p in purses && CountOf(OfPurse(cs, p), s) > 0 ==> HasGroup(groups, p, s))
  }

  /** percentComplete is in hundredths of a percent. */
  datatype Summary = Summary(
    paidCount: nat, pendingCount: nat, expiredCount: nat, flaggedCount: nat,
    totalCollected: Kobo, collectedOnline: Kobo, collectedManually: Kobo, percentComplete: nat)

  lemma {:induction false} NoRowsNothingReceived(rows: seq<Contribution>, status: ContributionStatus)
    ensures CountOf(rows, status) == 0 ==> ReceivedOf(rows, status) == 0
  {
    if rows != [] {
      NoRowsNothingReceived(rows[..|rows| - 1], status);
    }
  }

  /** The grouped rows of a single purse, against that purse's contributions. */
  ghost predicate Describes(groups: seq<Group>, rows: seq<Contribution>) {
    && (forall i :: 0 <= i < |groups| ==> Describe(groups[i], rows))
    && (forall t :: CountOf(rows, t) > 0 ==> exists i :: 0 <= i < |groups| && groups[i].status == t)
  }

  predicate Describe(g: Group, rows: seq<Contribution>) {
    g.count == CountOf(rows, g.status) && g.collected == ReceivedOf(rows, g.status)
  }

  lemma GroupsDescribe(cs: seq<Contribution>, purse: nat, groups: seq<Group>)
    requires IsGroupBy(cs, {purse}, groups)
    ensures Describes(groups, OfPurse(cs, purse))
  {
    forall i | 0 <= i < |groups| ensures Describe(groups[i], OfPurse(cs, purse)) {
      assert GroupAgrees(cs, groups[i]) && groups[i].purse in {purse};
    }
    forall t | CountOf(OfPurse(cs, purse), t) > 0 ensures exists i :: 0 <= i < |groups| && groups[i].status == t {
      assert purse in {purse} && HasGroup(groups, purse, t);
    }
  }

  /** The two dictionaries, one with a zero for every status and one without. */
  method ReadGroups(groups: seq<Group>, ghost rows: seq<Contribution>)
    returns (counts: map<ContributionStatus, nat>, collected: map<ContributionStatus, Kobo>)
    requires Describes(groups, rows)
    ensures forall t: ContributionStatus :: t in counts && counts[t] == CountOf(rows, t)
    ensures forall t: ContributionStatus :: (if t in collected then collected[t] else 0) == ReceivedOf(rows, t)
  {
    counts := map[Pending := 0, Paid := 0, Expired := 0, Flagged := 0, PaidManual := 0];
    collected := map[];
    forall t: ContributionStatus ensures t in counts {
      assert t == Pending || t == Paid || t == Expired || t == Flagged || t == PaidManual;
    }
    for i := 0 to |groups|
      invariant forall t: ContributionStatus :: t in counts
      invariant forall j :: 0 <= j < i ==> groups[j].status in collected
      invariant forall t :: t in counts ==> counts[t] == if t in collected then CountOf(rows, t) else 0
      invariant forall t :: t in collected ==> collected[t] == ReceivedOf(rows, t)
    {
      assert Describe(groups[i], rows);
      counts := counts[groups[i].status := groups[i].count];
      collected := collected[groups[i].status := groups[i].collected];
    }
    forall t: ContributionStatus | t !in collected ensures CountOf(rows, t) == 0 && ReceivedOf(rows, t) == 0 {
      NoRowsNothingReceived(rows, t);
    }
  }

  method SummaryForPurse(cs: seq<Contribution>, purse: nat, purseStatus: PurseStatus, groups: seq<Group>)
    returns (s: Summary)
    requires IsGroupBy(cs, {purse}, groups)
    ensures s == SummaryOf(OfPurse(cs, purse), purseStatus)
  {
    hide OfPurse, CountOf, ReceivedOf, IsGroupBy, Describes, RoundHalfEven;
    GroupsDescribe(cs, purse, groups);
    var counts, collected := ReadGroups(groups, OfPurse(cs, purse));
    var collectedOnline := if Paid in collected then collected[Paid] else 0;
    var collectedManually := if PaidManual in collected then collected[PaidManual] else 0;
    var totalCount := counts[Pending] + counts[Paid] + counts[Expired] + counts[Flagged] + counts[PaidManual];
    var completedCount := counts[Paid] + counts[PaidManual];
    CountsSplit(OfPurse(cs, purse));
    var stillOpen := purseStatus.Open?;
    s := Summary(completedCount,
                 counts[Pending] + (if stillOpen then counts[Expired] else 0),
                 if stillOpen then 0 else counts[Expired],
                 counts[Flagged],
                 collectedOnline + collectedManually, collectedOnline, collectedManually,
                 if totalCount > 0 then RoundHalfEven(completedCount * 10_000, totalCount) else 0);
  }

  /** The same figures, straight from the rows. */
  function SummaryOf(rows: seq<Contribution>, purse: PurseStatus): Summary {
    Summary(CountOf(rows, Paid) + CountOf(rows, PaidManual),
            CountOf(rows, Pending) + (if purse.Open? then CountOf(rows, Expired) else 0),
            if purse.Open? then 0 else CountOf(rows, Expired),
            CountOf(rows, Flagged),
            ReceivedOf(rows, Paid) + ReceivedOf(rows, PaidManual), ReceivedOf(rows, Paid), ReceivedOf(rows, PaidManual),
            Percent(CountOf(rows, Paid) + CountOf(rows, PaidManual), |rows|))
  }

  /** part of whole, rounded to a hundredth of a percent. */
  function Percent(part: nat, whole: nat): nat {
    if whole == 0 then 0 else RoundHalfEven(part * 10_000, whole)
  }

  lemma HasGroupPush(groups: seq<Group>, i: nat)
    requires i < |groups|
    ensures forall p, t :: HasGroup(groups[..i + 1], p, t) <==>
      HasGroup(groups[..i], p, t) || (p == groups[i].purse && t == groups[i].status)
  {
    var short, long := groups[..i], groups[..i + 1];
    forall p, t ensures HasGroup(long, p, t) <==> HasGroup(short, p, t) || (p == groups[i].purse && t == groups[i].status) {
      if HasGroup(short, p, t) {
        var j :| 0 <= j < |short| && short[j].purse == p && short[j].status == t;
        assert long[j].purse == p && long[j].status == t;
      }
      assert long[i] == groups[i];
      if HasGroup(long, p, t) {
        var j :| 0 <= j < |long| && long[j].purse == p && long[j].status == t;
        assert j < i ==> short[j] == long[j];
      }
    }
  }

  // ----- many purses at once -----

  /** What grouped rows say about purse p, over all statuses or over one. */
  function Tally(groups: seq<Group>, p: nat): nat {
    if groups == [] then 0
    else
      var front := Tally(groups[..|groups| - 1], p);
      if groups[|groups| - 1].purse == p then front + groups[|groups| - 1].count else front
  }

  function TallyOf(groups: seq<Group>, p: nat, status: ContributionStatus): nat {
    if groups == [] then 0
    else
      var front := TallyOf(groups[..|groups| - 1], p, status);
      var g := groups[|groups| - 1];
      if g.purse == p && g.status == status then front + g.count else front
  }

  lemma {:induction false} TallySplits(groups: seq<Group>, p: nat)
    ensures Tally(groups, p) == TallyOf(groups, p, Pending) + TallyOf(groups, p, Paid) + TallyOf(groups, p, Expired)
      + TallyOf(groups, p, Flagged) + TallyOf(groups, p, PaidManual)
  {
    if groups != [] {
      TallySplits(groups[..|groups| - 1], p);
    }
  }

  lemma {:induction false} CountsSplit(rows: seq<Contribution>)
    ensures |rows| == CountOf(rows, Pending) + CountOf(rows, Paid) + CountOf(rows, Expired)
      + CountOf(rows, Flagged) + CountOf(rows, PaidManual)
  {
    if rows != [] {
      CountsSplit(rows[..|rows| - 1]);
    }
  }

  /** Every status is counted once, by the one row that carries it. */
  lemma {:induction false} TallyOfPrefix(cs: seq<Contribution>, purses: set<nat>, groups: seq<Group>, n: nat,
                                         p: nat, status: ContributionStatus)
    requires IsGroupBy(cs, purses, groups) && n <= |groups|
    ensures TallyOf(groups[..n], p, status) ==
      if HasGroup(groups[..n], p, status) then CountOf(OfPurse(cs, p), status) else 0
  {
    if n > 0 {
      TallyOfPrefix(cs, purses, groups, n - 1, p, status);
      assert groups[..n][..n - 1] == groups[..n - 1];
      HasGroupPush(groups, n - 1);
      assert GroupAgrees(cs, groups[n - 1]);
      HasGroupOnce(cs, purses, groups, n - 1);
    }
  }

  lemma HasGroupOnce(cs: seq<Contribution>, purses: set<nat>, groups: seq<Group>, n: nat)
    requires IsGroupBy(cs, purses, groups) && n < |groups|
    ensures !HasGroup(groups[..n], groups[n].purse, groups[n].status)
  {
  }

  lemma TallyIsCount(cs: seq<Contribution>, purses: set<nat>, groups: seq<Group>, p: nat, status: ContributionStatus)
    requires IsGroupBy(cs, purses, groups) && p in purses
    ensures TallyOf(groups, p, status) == CountOf(OfPurse(cs, p), status)
  {
    TallyOfPrefix(cs, purses, groups, |groups|, p, status);
    assert groups[..|groups|] == groups;
  }

  lemma TallyIsLength(cs: seq<Contribution>, purses: set<nat>, groups: seq<Group>, p: nat)
    requires IsGroupBy(cs, purses, groups) && p in purses
    ensures Tally(groups, p) == |OfPurse(cs, p)|
  {
    TallySplits(groups, p);
    CountsSplit(OfPurse(cs, p));
    TallyIsCount(cs, purses, groups, p, Pending);
    TallyIsCount(cs, purses, groups, p, Paid);
    TallyIsCount(cs, purses, groups, p, Expired);
    TallyIsCount(cs, purses, groups, p, Flagged);
    TallyIsCount(cs, purses, groups, p, PaidManual);
  }

  /** (paid, total) as the grouped rows have it. */
  function PaidAndTotal(groups: seq<Group>, p: nat): (nat, nat) {
    (TallyOf(groups, p, Paid) + TallyOf(groups, p, PaidManual), Tally(groups, p))
  }

  lemma PaidAndTotalPush(groups: seq<Group>, i: nat, p: nat)
    requires i < |groups|
    ensures var g := groups[i];
      var before := PaidAndTotal(groups[..i], p);
      PaidAndTotal(groups[..i + 1], p) ==
        if g.purse != p then before
        else (if g.status.Paid? || g.status.PaidManual? then before.0 + g.count else before.0, before.1 + g.count)
  {
    assert groups[..i + 1][..i] == groups[..i];
  }

  lemma PaidAndTotalIsCount(cs: seq<Contribution>, purses: set<nat>, groups: seq<Group>, p: nat)
    requires IsGroupBy(cs, purses, groups) && p in purses
    ensures var rows := OfPurse(cs, p);
      PaidAndTotal(groups, p) == (CountOf(rows, Paid) + CountOf(rows, PaidManual), |rows|)
  {
    TallyIsLength(cs, purses, groups, p);
    TallyIsCount(cs, purses, groups, p, Paid);
    TallyIsCount(cs, purses, groups, p, PaidManual);
  }

  method AddUpGroups(purses: set<nat>, groups: seq<Group>) returns (result: map<nat, (nat, nat)>)
    requires forall i :: 0 <= i < |groups| ==> groups[i].purse in purses
    ensures result.Keys == purses
    ensures forall p :: p in result ==> result[p] == PaidAndTotal(groups, p)
  {
    result := map p | p in purses :: (0, 0);
    var i := 0;
    while i < |groups|
      invariant 0 <= i <= |groups| && result.Keys == purses
      invariant forall p :: p in result ==> result[p] == PaidAndTotal(groups[..i], p)
    {
      var g := groups[i];
      var (paid, total) := result[g.purse];
      total := total + g.count;
      if g.status.Paid? || g.status.PaidManual? {
        paid := paid + g.count;
      }
      forall p | p in purses
        ensures PaidAndTotal(groups[..i + 1], p) == if p == g.purse then (paid, total) else result[p]
      {
        PaidAndTotalPush(groups, i, p);
      }
      result := result[g.purse := (paid, total)];
      i := i + 1;
    }
    assert groups[..i] == groups;
  }

  /** (paid, total) for every purse asked about. */
  method CountsForPurses(cs: seq<Contribution>, purses: set<nat>, groups: seq<Group>)
    returns (result: map<nat, (nat, nat)>)
    requires IsGroupBy(cs, purses, groups)
    ensures result.Keys == purses
    ensures forall p :: p in result ==>
      result[p] == (CountOf(OfPurse(cs, p), Paid) + CountOf(OfPurse(cs, p), PaidManual), |OfPurse(cs, p)|)
  {
    result := AddUpGroups(purses, groups);
    forall p | p in purses
      ensures PaidAndTotal(groups, p) ==
        (CountOf(OfPurse(cs, p), Paid) + CountOf(OfPurse(cs, p), PaidManual), |OfPurse(cs, p)|)
    {
      PaidAndTotalIsCount(cs, purses, groups, p);
    }
  }

  /** Money counted as collected, whatever its source. */
  function SettledTotal(rows: seq<Contribution>): Kobo {
    if rows == [] then 0
    else
      var front := SettledTotal(rows[..|rows| - 1]);
      var c := rows[|rows| - 1];
      if c.status.Paid? || c.status.PaidManual? then front + c.received else front
  }

  /** One row of a query over settled contributions, grouped by purse. */
  datatype Collected = Collected(purse: nat, amount: Kobo)

  ghost predicate IsCollectedBy(cs: seq<Contribution>, purses: set<nat>, rows: seq<Collected>) {
    && (forall i :: 0 <= i < |rows| ==> rows[i].purse in purses && rows[i].amount == SettledTotal(OfPurse(cs, rows[i].purse)))
    && (forall p :: p in purses && SettledTotal(OfPurse(cs, p)) != 0 ==> exists i :: 0 <= i < |rows| && rows[i].purse == p)
  }

  method CollectedTotalsForPurses(cs: seq<Contribution>, purses: set<nat>, rows: seq<Collected>)
    returns (result: map<nat, Kobo>)
    requires IsCollectedBy(cs, purses, rows)
    ensures result.Keys == purses
    ensures forall p :: p in result ==> result[p] == SettledTotal(OfPurse(cs, p))
  {
    result := map p | p in purses :: 0;
    var i := 0;
    while i < |rows|
      invariant 0 <= i <= |rows| && result.Keys == purses
      invariant forall p :: p in result ==> result[p] == 0 || result[p] == SettledTotal(OfPurse(cs, p))
      invariant forall j :: 0 <= j < i ==> result[rows[j].purse] == SettledTotal(OfPurse(cs, rows[j].purse))
    {
      result := result[rows[i].purse := rows[i].amount];
      i := i + 1;
    }
  }

  // ----- agreement between the views -----

  lemma {:induction false} SourcesAddUp(rows: seq<Contribution>)
    ensures SettledTotal(rows) == ReceivedOf(rows, Paid) + ReceivedOf(rows, PaidManual)
  {
    if rows != [] {
      SourcesAddUp(rows[..|rows| - 1]);
    }
  }

  /** One contribution more, in both figures. */
  lemma OnlinePush(cs: seq<Contribution>, c: Contribution, purse: nat)
    ensures var online := if c.purse == purse && c.status.Paid? then c.received else 0;
      && ReceivedOf(OfPurse(cs + [c], purse), Paid) == ReceivedOf(OfPurse(cs, purse), Paid) + online
      && Total(Payouts.PaidRows(cs + [c]), purse) == Total(Payouts.PaidRows(cs), purse) + online
  {
    var row := Posting(c.purse, if c.status.Paid? then c.received else 0);
    assert Payouts.PaidRows(cs + [c]) == Payouts.PaidRows(cs) + [row];
    TotalPush(Payouts.PaidRows(cs), row, purse);
    assert (cs + [c])[..|cs|] == cs;
    var front := OfPurse(cs, purse);
    assert (front + [c])[..|front|] == front;
  }

  lemma {:induction false} OnlineTotal(cs: seq<Contribution>, purse: nat)
    ensures ReceivedOf(OfPurse(cs, purse), Paid) == Total(Payouts.PaidRows(cs), purse)
  {
    if cs != [] {
      var n := |cs| - 1;
      OnlineTotal(cs[..n], purse);
      OnlinePush(cs[..n], cs[n], purse);
      assert cs == cs[..n] + [cs[n]];
    }
  }

  /** What the summary calls collected online is what payouts may draw on, the same
      total that the payout ledger computes with its own query; what it calls
      collected manually is the rest of the settled money. */
  lemma OnlineIsWithdrawable(cs: seq<Contribution>, purse: nat, status: PurseStatus)
    ensures var s := SummaryOf(OfPurse(cs, purse), status);
      && s.collectedOnline == Total(Payouts.PaidRows(cs), purse)
      && s.collectedManually == SettledTotal(OfPurse(cs, purse)) - Total(Payouts.PaidRows(cs), purse)
  {
    OnlineTotal(cs, purse);
    SourcesAddUp(OfPurse(cs, purse));
  }

  /** The summary against everything else the screens show, for any purse and
      any rows. Its pending count is what the "pending" filter finds, and is also
      the number of rows badged "pending" unless the purse is closed and still
      has pending rows, which are then badged "closed". */
  lemma SummaryAgrees(rows: seq<Contribution>, purse: PurseStatus)
    ensures var s := SummaryOf(rows, purse);
      && s.paidCount + s.pendingCount + s.expiredCount + s.flaggedCount == |rows|
      && s.totalCollected == SettledTotal(rows)
      && s.paidCount == CountShown(rows, purse, StatusBadge(Paid)) + CountShown(rows, purse, StatusBadge(PaidManual))
      && s.expiredCount == CountShown(rows, purse, StatusBadge(Expired))
      && s.flaggedCount == CountShown(rows, purse, StatusBadge(Flagged))
      && s.pendingCount == CountShown(rows, purse, StatusBadge(Pending)) + CountShown(rows, purse, ClosedBadge)
      && (s.pendingCount == CountShown(rows, purse, StatusBadge(Pending)) <==> !purse.Closed? || CountOf(rows, Pending) == 0)
  {
    CountsSplit(rows);
    SourcesAddUp(rows);
    ShownCounts(rows, purse);
  }

  lemma PercentBounds(part: nat, whole: nat)
    requires part <= whole && whole > 0
    ensures Percent(part, whole) == 10_000 <==> 20_000 * (whole - part) <= whole
  {
    DivMod(part * 10_000, whole);
    var q, r := part * 10_000 / whole, part * 10_000 % whole;
    if q <= 9_998 {
      MulMonotone(q, 9_998, whole);
    } else if q >= 10_001 {
      MulMonotone(10_001, q, whole);
    }
    RoundedIs(q, r, whole, whole - part, whole * q);
  }

  lemma RoundedIs(q: nat, r: nat, whole: nat, missing: nat, exact: nat)
    requires whole > 0 && r < whole && exact + r == 10_000 * (whole - missing)
    requires q <= 9_998 ==> exact <= 9_998 * whole
    requires q >= 10_001 ==> exact >= 10_001 * whole
    requires q == 9_999 ==> exact == 9_999 * whole
    requires q == 10_000 ==> exact == 10_000 * whole
    ensures (if 2 * r > whole || (2 * r == whole && q % 2 == 1) then q + 1 else q) == 10_000 <==>
      20_000 * missing <= whole
  {
  }

  /** The summary shows 100 % not only when every row is settled, but exactly when
      at most one row in twenty thousand is not. */
  lemma CompleteIff(rows: seq<Contribution>, purse: PurseStatus)
    requires rows != []
    ensures var s := SummaryOf(rows, purse);
      s.percentComplete == 10_000 <==> 20_000 * (|rows| - s.paidCount) <= |rows|
  {
    CountsSplit(rows);
    PercentBounds(CountOf(rows, Paid) + CountOf(rows, PaidManual), |rows|);
  }

  // ----- lists and pages -----

  datatype OwnerType = MemberOwned | AdminOwned

  datatype ContributionRow = ContributionRow(contribution: Contribution, createdAt: Time, owner: OwnerType)

  predicate Sorted(rows: seq<ContributionRow>) {
    forall i, j :: 0 <= i < j < |rows| ==> rows[i].createdAt <= rows[j].createdAt
  }

  /** Behind every row created no later. */
  function InsertRow(rows: seq<ContributionRow>, r: ContributionRow): seq<ContributionRow> {
    if rows == [] || rows[|rows| - 1].createdAt <= r.createdAt then rows + [r]
    else InsertRow(rows[..|rows| - 1], r) + [rows[|rows| - 1]]
  }

  /** Stable sorting by creation time. */
  function SortRows(rows: seq<ContributionRow>): seq<ContributionRow> {
    if rows == [] then [] else InsertRow(SortRows(rows[..|rows| - 1]), rows[|rows| - 1])
  }

  function CombineOwnerRows(memberRows: seq<ContributionRow>, adminRows: seq<ContributionRow>): seq<ContributionRow> {
    SortRows(memberRows + adminRows)
  }

  function Keep(rows: seq<ContributionRow>, f: Filter): seq<ContributionRow> {
    if rows == [] then []
    else
      var front := Keep(rows[..|rows| - 1], f);
      if Passes(rows[|rows| - 1], f) then front + [rows[|rows| - 1]] else front
  }

  /** Which rows to keep: by status as the list endpoint filters them, or by creation time. */
  datatype Filter = Everything | ByStatus(status: ContributionStatus, purseIsOpen: bool) | CreatedAt(at: Time)

  predicate Passes(r: ContributionRow, f: Filter) {
    match f
    case Everything => true
    case ByStatus(status, purseIsOpen) =>
      if status.Pending? && purseIsOpen then r.contribution.status.Pending? || r.contribution.status.Expired?
      else r.contribution.status == status
    case CreatedAt(at) => r.createdAt == at
  }

  function Page(rows: seq<ContributionRow>, limit: nat, offset: nat): seq<ContributionRow> {
    if offset >= |rows| then []
    else if offset + limit >= |rows| then rows[offset..] else rows[offset..offset + limit]
  }

  /** One page of the combined, filtered rows, and how many there are in all. */
  function ListForPurse(memberRows: seq<ContributionRow>, adminRows: seq<ContributionRow>, f: Filter, limit: nat, offset: nat)
    : (seq<ContributionRow>, nat)
  {
    var combined := CombineOwnerRows(Keep(memberRows, f), Keep(adminRows, f));
    (Page(combined, limit, offset), |combined|)
  }

  lemma {:induction false} InsertContents(rows: seq<ContributionRow>, r: ContributionRow)
    ensures multiset(InsertRow(rows, r)) == multiset(rows) + multiset{r}
  {
    if rows != [] && rows[|rows| - 1].createdAt > r.createdAt {
      var n := |rows| - 1;
      InsertContents(rows[..n], r);
      assert rows == rows[..n] + [rows[n]];
    }
  }

  /** What is inserted is no later than a bound on all rows. */
  lemma {:induction false} InsertBounded(rows: seq<ContributionRow>, r: ContributionRow, bound: Time)
    requires r.createdAt <= bound && forall i :: 0 <= i < |rows| ==> rows[i].createdAt <= bound
    ensures forall i :: 0 <= i < |InsertRow(rows, r)| ==> InsertRow(rows, r)[i].createdAt <= bound
  {
    if rows != [] && rows[|rows| - 1].createdAt > r.createdAt {
      InsertBounded(rows[..|rows| - 1], r, bound);
    }
  }

  lemma {:induction false} InsertSorts(rows: seq<ContributionRow>, r: ContributionRow)
    requires Sorted(rows)
    ensures Sorted(InsertRow(rows, r))
  {
    if rows != [] && rows[|rows| - 1].createdAt > r.createdAt {
      var n := |rows| - 1;
      InsertSorts(rows[..n], r);
      InsertBounded(rows[..n], r, rows[n].createdAt);
    }
  }

  lemma {:induction false} SortSorts(rows: seq<ContributionRow>)
    ensures Sorted(SortRows(rows)) && multiset(SortRows(rows)) == multiset(rows)
  {
    if rows != [] {
      SortSorts(rows[..|rows| - 1]);
      hide InsertRow, Sorted;
      InsertSorts(SortRows(rows[..|rows| - 1]), rows[|rows| - 1]);
      InsertContents(SortRows(rows[..|rows| - 1]), rows[|rows| - 1]);
      assert rows == rows[..|rows| - 1] + [rows[|rows| - 1]];
    }
  }

  lemma KeepPush(rows: seq<ContributionRow>, r: ContributionRow, f: Filter)
    ensures Keep(rows + [r], f) == if Passes(r, f) then Keep(rows, f) + [r] else Keep(rows, f)
  {
  }

  lemma {:induction false} KeepConcat(a: seq<ContributionRow>, b: seq<ContributionRow>, f: Filter)
    ensures Keep(a + b, f) == Keep(a, f) + Keep(b, f)
  {
    if b == [] {
      assert a + b == a;
    } else {
      var n := |b| - 1;
      assert a + b == (a + b[..n]) + [b[n]];
      KeepConcat(a, b[..n], f);
      KeepPush(a + b[..n], b[n], f);
    }
  }

  lemma {:induction false} KeepIsSorted(rows: seq<ContributionRow>, f: Filter)
    requires Sorted(rows)
    ensures Sorted(Keep(rows, f))
    ensures forall i :: 0 <= i < |Keep(rows, f)| ==> Keep(rows, f)[i] in rows
  {
    if rows != [] {
      KeepIsSorted(rows[..|rows| - 1], f);
    }
  }

  lemma InsertLast(rows: seq<ContributionRow>, r: ContributionRow)
    requires forall i :: 0 <= i < |rows| ==> rows[i].createdAt <= r.createdAt
    ensures InsertRow(rows, r) == rows + [r]
  {
  }

  lemma {:induction false} InsertThenKeep(rows: seq<ContributionRow>, r: ContributionRow, f: Filter)
    requires Sorted(rows)
    ensures Keep(InsertRow(rows, r), f) == if Passes(r, f) then InsertRow(Keep(rows, f), r) else Keep(rows, f)
  {
    if rows == [] || rows[|rows| - 1].createdAt <= r.createdAt {
      KeepPush(rows, r, f);
      KeepIsSorted(rows, f);
      InsertLast(Keep(rows, f), r);
    } else {
      var n := |rows| - 1;
      InsertThenKeep(rows[..n], r, f);
      hide InsertRow, Keep, Passes;
      assert rows == rows[..n] + [rows[n]];
      InsertBefore(rows[..n], rows[n], r);
      KeepPush(rows[..n], rows[n], f);
      KeepPush(InsertRow(rows[..n], r), rows[n], f);
      InsertBefore(Keep(rows[..n], f), rows[n], r);
    }
  }

  lemma InsertBefore(rows: seq<ContributionRow>, last: ContributionRow, r: ContributionRow)
    requires last.createdAt > r.createdAt
    ensures InsertRow(rows + [last], r) == InsertRow(rows, r) + [last]
  {
  }

  /** Sorting and filtering commute. */
  lemma {:induction false} SortThenKeep(rows: seq<ContributionRow>, f: Filter)
    ensures Keep(SortRows(rows), f) == SortRows(Keep(rows, f))
  {
    if rows != [] {
      var n := |rows| - 1;
      SortThenKeep(rows[..n], f);
      SortSorts(rows[..n]);
      InsertThenKeep(SortRows(rows[..n]), rows[n], f);
      var front := Keep(rows[..n], f);
      assert (front + [rows[n]])[..|front|] == front;
    }
  }

  lemma {:induction false} SameTimeStays(rows: seq<ContributionRow>, at: Time)
    requires forall i :: 0 <= i < |rows| ==> rows[i].createdAt == at
    ensures SortRows(rows) == rows
  {
    if rows != [] {
      SameTimeStays(rows[..|rows| - 1], at);
      InsertLast(rows[..|rows| - 1], rows[|rows| - 1]);
      assert rows == rows[..|rows| - 1] + [rows[|rows| - 1]];
    }
  }

  lemma {:induction false} KeptAtTime(rows: seq<ContributionRow>, at: Time)
    ensures forall i :: 0 <= i < |Keep(rows, CreatedAt(at))| ==> Keep(rows, CreatedAt(at))[i].createdAt == at
  {
    if rows != [] {
      KeptAtTime(rows[..|rows| - 1], at);
    }
  }

  /** The list is ordered by creation time, loses and invents no row, and rows
      created at the same time stay in the order the queries returned them,
      members before admins. */
  lemma CombinedIsStable(memberRows: seq<ContributionRow>, adminRows: seq<ContributionRow>, at: Time)
    ensures var all := CombineOwnerRows(memberRows, adminRows);
      && Sorted(all) && multiset(all) == multiset(memberRows) + multiset(adminRows)
      && Keep(all, CreatedAt(at)) == Keep(memberRows, CreatedAt(at)) + Keep(adminRows, CreatedAt(at))
  {
    SortSorts(memberRows + adminRows);
    SortThenKeep(memberRows + adminRows, CreatedAt(at));
    KeptAtTime(memberRows + adminRows, at);
    SameTimeStays(Keep(memberRows + adminRows, CreatedAt(at)), at);
    KeepConcat(memberRows, adminRows, CreatedAt(at));
  }

  /** A filtered list is the full list with the other rows left out. */
  lemma FilteredIsPartOfFull(memberRows: seq<ContributionRow>, adminRows: seq<ContributionRow>, f: Filter)
    ensures CombineOwnerRows(Keep(memberRows, f), Keep(adminRows, f)) == Keep(CombineOwnerRows(memberRows, adminRows), f)
  {
    KeepConcat(memberRows, adminRows, f);
    SortThenKeep(memberRows + adminRows, f);
  }

  /** The first n pages, one after the other. */
  function Pages(memberRows: seq<ContributionRow>, adminRows: seq<ContributionRow>, f: Filter, limit: nat, n: nat)
    : seq<ContributionRow>
  {
    if n == 0 then []
    else Pages(memberRows, adminRows, f, limit, n - 1) + ListForPurse(memberRows, adminRows, f, limit, (n - 1) * limit).0
  }

  lemma PageExtends(rows: seq<ContributionRow>, limit: nat, offset: nat)
    ensures (if offset < |rows| then rows[..offset] else rows) + Page(rows, limit, offset) ==
      if offset + limit < |rows| then rows[..offset + limit] else rows
  {
  }

  /** Pages read one after the other are the full list, once they reach its total. */
  lemma {:induction false} PagesAreTheList(memberRows: seq<ContributionRow>, adminRows: seq<ContributionRow>, f: Filter,
                                           limit: nat, n: nat)
    ensures var all := CombineOwnerRows(Keep(memberRows, f), Keep(adminRows, f));
      Pages(memberRows, adminRows, f, limit, n) == if n * limit < |all| then all[..n * limit] else all
  {
    if n > 0 {
      PagesAreTheList(memberRows, adminRows, f, limit, n - 1);
      var all := CombineOwnerRows(Keep(memberRows, f), Keep(adminRows, f));
      PageExtends(all, limit, (n - 1) * limit);
      assert (n - 1) * limit + limit == n * limit;
    }
  }

  function ContributionsOf(rows: seq<ContributionRow>): (r: seq<Contribution>)
    ensures |r| == |rows| && forall i :: 0 <= i < |rows| ==> r[i] == rows[i].contribution
  {
    seq(|rows|, i requires 0 <= i < |rows| => rows[i].contribution)
  }

  lemma {:induction false} KeptCount(rows: seq<ContributionRow>, status: ContributionStatus, purseIsOpen: bool)
    ensures |Keep(rows, ByStatus(status, purseIsOpen))| == CountOf(ContributionsOf(rows), status)
      + if status.Pending? && purseIsOpen then CountOf(ContributionsOf(rows), Expired) else 0
  {
    if rows != [] {
      KeptCount(rows[..|rows| - 1], status, purseIsOpen);
      assert ContributionsOf(rows)[..|rows| - 1] == ContributionsOf(rows[..|rows| - 1]);
    }
  }

  lemma {:induction false} CountAppends(a: seq<Contribution>, b: seq<Contribution>, t: ContributionStatus)
    ensures CountOf(a + b, t) == CountOf(a, t) + CountOf(b, t)
  {
    if b == [] {
      assert a + b == a;
    } else {
      assert (a + b)[..|a + b| - 1] == a + b[..|b| - 1];
      CountAppends(a, b[..|b| - 1], t);
    }
  }

  /** The total that comes with a status filter is the number of rows of that
      status, and with the "pending" filter it is the summary's pending count. */
  lemma FilterTotalsAgree(memberRows: seq<ContributionRow>, adminRows: seq<ContributionRow>, purse: PurseStatus,
                          status: ContributionStatus, limit: nat, offset: nat)
    ensures var rows := ContributionsOf(memberRows) + ContributionsOf(adminRows);
      ListForPurse(memberRows, adminRows, ByStatus(status, purse.Open?), limit, offset).1 ==
        if status.Pending? then SummaryOf(rows, purse).pendingCount else CountOf(rows, status)
  {
    var f := ByStatus(status, purse.Open?);
    SortSorts(Keep(memberRows, f) + Keep(adminRows, f));
    var kept := Keep(memberRows, f) + Keep(adminRows, f);
    assert |multiset(SortRows(kept))| == |multiset(kept)|;
    KeptCount(memberRows, status, purse.Open?);
    KeptCount(adminRows, status, purse.Open?);
    CountAppends(ContributionsOf(memberRows), ContributionsOf(adminRows), status);
    CountAppends(ContributionsOf(memberRows), ContributionsOf(adminRows), Expired);
  }
}
