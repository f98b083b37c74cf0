/** Exactly when a run that mixes sweeps with purse-scoped payouts keeps every
    purse solvent: per sweep, over runs, and whatever order the database scans
    the purses of a group in. */
module MixedRuns {
  import opened Rows
  import opened Sums
  import opened Sweep
  import opened ContributionLaws
  import opened Payouts
  import opened PayoutLaws
  import opened Platform
  import opened RunGuarantees
  import opened SweepGuarantees

  // ----- one request -----

  /** A purse-scoped request is checked against its purse only; it leaves the
      group solvent exactly when the group could also afford it. */
  lemma DirectRequestKeepsGroupIff(db: Db, admin: Admin, req: PayoutRequest, gate: Gate, scan: seq<nat>)
    requires CreatePayout(db, admin, req, gate, scan).1.Ok?
    ensures GroupBalance(CreatePayout(db, admin, req, gate, scan).0, admin.group) >= 0 <==>
      req.amount <= GroupBalance(db, admin.group)
  {
    RequestEffectOnGroup(db, admin, req, gate, scan, admin.group);
  }

  /** Every share of the sweep is within what its purse has left. */
  ghost predicate SharesFit(db: Db, scan: seq<nat>, amount: Kobo) {
    var el := EligibleOf(db, scan);
    el != [] && Weight(el) > 0 ==> Fit(el, Shares(amount, el), Balances(db))
  }

  lemma EligibleIsDistinct(db: Db, group: nat, scan: seq<nat>)
    requires ContributionsOk(db) && PayoutsOk(db) && IsScan(db, group, scan)
    ensures DistinctPurses(EligibleOf(db, scan))
  {
    CollectedCoversHolds(db);
    EligibleDistinct(db, scan);
  }

  /** After an accepted sweep, an eligible purse has its share less, and any
      other purse what it had. */
  lemma SweepLeaves(db: Db, admin: Admin, req: PayoutRequest, gate: Gate, scan: seq<nat>, p: nat)
    requires ContributionsOk(db) && PayoutsOk(db) && IsScan(db, admin.group, scan)
    requires req.purse.None? && CreatePayout(db, admin, req, gate, scan).1.Ok?
    ensures var el := EligibleOf(db, scan);
      && Sweepable(req.amount, el)
      && Leaves(el, Shares(req.amount, el), p, AvailableBalance(db, p),
                AvailableBalance(CreatePayout(db, admin, req, gate, scan).0, p))
  {
    hide ContributionsOk, PayoutsOk, AvailableBalance;
    SweepEffect(db, admin, req, gate, scan, p);
    EligibleIsDistinct(db, admin.group, scan);
    ChargeIsShare(db, scan, req.amount, p);
  }

  ghost predicate Leaves(el: seq<Eligible>, shares: seq<int>, p: nat, before: int, after: int)
    requires |el| == |shares|
  {
    && (!Lists(el, p) ==> after == before)
    && forall x :: 0 <= x < |el| && el[x].purse == p ==> after == before - shares[x]
  }

  function Balances(db: Db): nat -> int {
    (p: nat) => AvailableBalance(db, p)
  }

  ghost predicate NoneNegative(balances: nat -> int) {
    forall p: nat :: balances(p) >= 0
  }

  ghost predicate AllLeave(el: seq<Eligible>, shares: seq<int>, before: nat -> int, after: nat -> int)
    requires |el| == |shares|
  {
    forall p: nat :: Leaves(el, shares, p, before(p), after(p))
  }

  ghost predicate Fit(el: seq<Eligible>, shares: seq<int>, balances: nat -> int)
    requires |el| == |shares|
  {
    forall x :: 0 <= x < |el| ==> shares[x] <= balances(el[x].purse)
  }

  lemma SolventAfter(el: seq<Eligible>, shares: seq<int>, before: nat -> int, after: nat -> int)
    requires |el| == |shares| && NoneNegative(before) && AllLeave(el, shares, before, after)
    ensures NoneNegative(after) <==> Fit(el, shares, before)
  {
  }

  lemma SweepLeavesAll(db: Db, admin: Admin, req: PayoutRequest, gate: Gate, scan: seq<nat>)
    requires ContributionsOk(db) && PayoutsOk(db) && IsScan(db, admin.group, scan)
    requires req.purse.None? && CreatePayout(db, admin, req, gate, scan).1.Ok?
    ensures var el := EligibleOf(db, scan);
      && Sweepable(req.amount, el)
      && AllLeave(el, Shares(req.amount, el), Balances(db), Balances(CreatePayout(db, admin, req, gate, scan).0))
  {
    hide ContributionsOk, PayoutsOk, AvailableBalance, CreatePayout;
    SweepLeaves(db, admin, req, gate, scan, 0);
    var shares := Shares(req.amount, EligibleOf(db, scan));
    var before, after := Balances(db), Balances(CreatePayout(db, admin, req, gate, scan).0);
    forall p: nat ensures Leaves(EligibleOf(db, scan), shares, p, before(p), after(p)) {
      SweepLeaves(db, admin, req, gate, scan, p);
    }
  }

  lemma SolventMeansNoneNegative(db: Db)
    ensures PursesSolvent(db) <==> NoneNegative(Balances(db))
  {
    if PursesSolvent(db) {
      forall p: nat ensures Balances(db)(p) >= 0 {
        assert AvailableBalance(db, p) >= 0;
      }
    }
    if NoneNegative(Balances(db)) {
      forall p: nat ensures AvailableBalance(db, p) >= 0 {
        assert Balances(db)(p) >= 0;
      }
    }
  }

  /** An accepted sweep over solvent purses leaves all of them solvent if and
      only if its shares fit. */
  lemma SweepKeepsPursesIff(db: Db, admin: Admin, req: PayoutRequest, gate: Gate, scan: seq<nat>)
    requires ContributionsOk(db) && PayoutsOk(db) && PursesSolvent(db) && IsScan(db, admin.group, scan)
    requires req.purse.None? && CreatePayout(db, admin, req, gate, scan).1.Ok?
    ensures PursesSolvent(CreatePayout(db, admin, req, gate, scan).0) <==> SharesFit(db, scan, req.amount)
  {
    SweepLeavesAll(db, admin, req, gate, scan);
    SolventMeansNoneNegative(db);
    var db' := CreatePayout(db, admin, req, gate, scan).0;
    SolventMeansNoneNegative(db');
    SolventAfter(EligibleOf(db, scan), Shares(req.amount, EligibleOf(db, scan)), Balances(db), Balances(db'));
  }

  // ----- runs -----

  predicate AcceptsSweep(db: Db, step: Step) {
    step.RequestPayout? && step.req.purse.None? && CreatePayout(db, step.admin, step.req, step.gate, step.scan).1.Ok?
  }

  /** Every sweep of the run fitted when it was accepted. */
  ghost predicate SweepsFit(db: Db, steps: seq<Step>) {
    steps == [] ||
    var front, last := steps[..|steps| - 1], steps[|steps| - 1];
    SweepsFit(db, front) && (AcceptsSweep(Run(db, front), last) ==> SharesFit(Run(db, front), last.scan, last.req.amount))
  }

  lemma RequestCreates(db: Db, step: Step)
    requires step.RequestPayout?
    ensures Apply(db, step) == CreatePayout(db, step.admin, step.req, step.gate, step.scan).0
  {
  }

  lemma SweepStepIff(db: Db, step: Step)
    requires Inv(db) && PursesSolvent(db) && step.RequestPayout? && step.req.purse.None?
    requires IsScan(db, step.admin.group, step.scan)
    ensures PursesSolvent(Apply(db, step)) <==> (AcceptsSweep(db, step) ==> SharesFit(db, step.scan, step.req.amount))
  {
    hide Inv, PursesSolvent, SharesFit, Apply, CreatePayout, IsScan;
    InvParts(db);
    RequestCreates(db, step);
    RefusedChangesNothing(db, step.admin, step.req, step.gate, step.scan);
    hide ContributionsOk, PayoutsOk;
    if AcceptsSweep(db, step) {
      SweepKeepsPursesIff(db, step.admin, step.req, step.gate, step.scan);
    }
  }

  /** A step over solvent purses leaves them solvent if and only if it is not an
      accepted sweep that does not fit. */
  lemma SolventStepIff(db: Db, step: Step)
    requires Inv(db) && Admissible(db, step) && PursesSolvent(db)
    ensures PursesSolvent(Apply(db, step)) <==> (AcceptsSweep(db, step) ==> SharesFit(db, step.scan, step.req.amount))
  {
    hide Inv, PursesSolvent, SharesFit, Apply, CreatePayout, IsScan;
    if step.RequestPayout? && step.req.purse.None? {
      SweepStepIff(db, step);
    } else {
      DirectStepKeepsSolvent(db, step);
    }
  }

  /** No purse is overdrawn at any point of the run. */
  ghost predicate SolventThroughout(db: Db, steps: seq<Step>) {
    forall n :: 0 <= n <= |steps| ==> PursesSolvent(Run(db, steps[..n]))
  }

  lemma ThroughoutPush(db: Db, steps: seq<Step>)
    requires steps != []
    ensures SolventThroughout(db, steps) <==>
      SolventThroughout(db, steps[..|steps| - 1]) && PursesSolvent(Run(db, steps))
  {
    hide PursesSolvent, Run;
    var n := |steps| - 1;
    assert steps[..|steps|] == steps;
    assert forall m :: 0 <= m <= n ==> steps[..n][..m] == steps[..m];
  }

  /** The last step of a valid run. */
  lemma LastStep(db: Db, steps: seq<Step>)
    requires steps != [] && ValidRun(db, steps)
    ensures var front, last := steps[..|steps| - 1], steps[|steps| - 1];
      && ValidRun(db, front) && Admissible(Run(db, front), last) && Run(db, steps) == Apply(Run(db, front), last)
  {
    hide Apply, Admissible;
  }

  /** A run of any mixture of payouts never overdraws a purse if and only if every
      sweep fitted when it was accepted. */
  lemma {:induction false} SolventThroughoutIff(db: Db, steps: seq<Step>)
    requires Inv(db) && PursesSolvent(db) && ValidRun(db, steps)
    ensures SolventThroughout(db, steps) <==> SweepsFit(db, steps)
  {
    hide Inv, PursesSolvent, Run, ValidRun, Apply, Admissible, AcceptsSweep, SharesFit;
    if steps == [] {
      NoStepsNoChange(db);
      assert steps[..0] == steps;
    } else {
      var front, last := steps[..|steps| - 1], steps[|steps| - 1];
      LastStep(db, steps);
      SolventThroughoutIff(db, front);
      ThroughoutPush(db, steps);
      RunKeeps(db, front);
      assert front[..|front|] == front;
      if SolventThroughout(db, front) {
        SolventStepIff(Run(db, front), last);
      }
    }
  }

  lemma NoStepsNoChange(db: Db)
    ensures Run(db, []) == db
  {
  }

  // ----- the condition without the scan -----

  /** The purses a sweep of the group draws on. */
  predicate Pays(db: Db, group: nat, p: nat) {
    p < |db.purses| && db.purses[p].group == group && AvailableBalance(db, p) > 0
  }

  function Collecteds(db: Db, group: nat): (r: seq<int>)
    ensures |r| == |db.purses|
    ensures forall p :: 0 <= p < |r| ==> r[p] == if Pays(db, group, p) then CollectedTotal(db, p) else 0
  {
    seq(|db.purses|, p requires 0 <= p < |db.purses| => if Pays(db, group, p) then CollectedTotal(db, p) else 0)
  }

  /** What all paying purses of the group have collected. */
  function PoolWeight(db: Db, group: nat): int {
    Sum(Collecteds(db, group))
  }

  /** A purse's slice of a sweep, rounded down. */
  function Slice(db: Db, group: nat, amount: Kobo, p: nat): int
    requires PoolWeight(db, group) > 0
  {
    FloorShare(amount, CollectedTotal(db, p), PoolWeight(db, group))
  }

  function Slices(db: Db, group: nat, amount: Kobo): (r: seq<int>)
    requires PoolWeight(db, group) > 0
    ensures |r| == |db.purses|
    ensures forall p :: 0 <= p < |r| ==> r[p] == if Pays(db, group, p) then Slice(db, group, amount, p) else 0
  {
    seq(|db.purses|, p requires 0 <= p < |db.purses| => if Pays(db, group, p) then Slice(db, group, amount, p) else 0)
  }

  /** What the slices leave of the sweep, for one purse to bear on top of its own. */
  function Shortfall(db: Db, group: nat, amount: Kobo): int
    requires PoolWeight(db, group) > 0
  {
    amount - Sum(Slices(db, group, amount))
  }

  /** Every paying purse could bear its slice and the whole shortfall. */
  predicate EveryPurseCovers(db: Db, group: nat, amount: Kobo) {
    PoolWeight(db, group) > 0 ==>
      forall p :: 0 <= p < |db.purses| && Pays(db, group, p) ==>
        Slice(db, group, amount, p) + Shortfall(db, group, amount) <= AvailableBalance(db, p)
  }

  /** el lists the paying purses, each once, with what they collected. */
  ghost predicate ListsPool(db: Db, group: nat, el: seq<Eligible>) {
    && DistinctPurses(el)
    && (forall x :: 0 <= x < |el| ==>
          Pays(db, group, el[x].purse) && el[x].collected == CollectedTotal(db, el[x].purse))
    && (forall p :: 0 <= p < |db.purses| && Pays(db, group, p) ==> Lists(el, p))
  }

  lemma ScanListsPool(db: Db, group: nat, scan: seq<nat>)
    requires ContributionsOk(db) && PayoutsOk(db) && IsScan(db, group, scan)
    ensures ListsPool(db, group, EligibleOf(db, scan))
  {
    hide ContributionsOk, PayoutsOk;
    CollectedCoversHolds(db);
    EligibleEntitled(db, scan);
    EligibleDistinct(db, scan);
    EligibleComplete(db, scan);
    var el := EligibleOf(db, scan);
    forall x | 0 <= x < |el|
      ensures Pays(db, group, el[x].purse) && el[x].collected == CollectedTotal(db, el[x].purse)
    {
      assert Entitled(db, el[x]) && el[x].purse in scan;
    }
  }

  /** Neither the total weight nor the shortfall depends on the scan. */
  lemma PoolFigures(db: Db, group: nat, el: seq<Eligible>, amount: Kobo)
    requires ListsPool(db, group, el)
    ensures Weight(el) == PoolWeight(db, group)
    ensures PoolWeight(db, group) > 0 ==> Remainder(amount, el) == Shortfall(db, group, amount)
  {
    ListedSum(el, Weights(el), Collecteds(db, group));
    if PoolWeight(db, group) > 0 {
      ListedSum(el, FloorShares(amount, el, Weight(el)), Slices(db, group, amount));
    }
  }

  /** The purses of the group but one, in table order. */
  function Others(purses: seq<Purse>, group: nat, skip: nat): (r: seq<nat>)
    ensures forall x :: 0 <= x < |r| ==> r[x] < |purses| && purses[r[x]].group == group && r[x] != skip
    ensures forall x, y :: 0 <= x < y < |r| ==> r[x] < r[y]
    ensures forall p :: 0 <= p < |purses| && purses[p].group == group && p != skip ==> p in r
  {
    if purses == [] then []
    else
      var n := |purses| - 1;
      var front := Others(purses[..n], group, skip);
      if purses[n].group == group && n != skip then front + [n] else front
  }

  /** Any purse of the group comes last in some scan. */
  lemma SomeScanEndsAt(db: Db, group: nat, p: nat) returns (scan: seq<nat>)
    requires p < |db.purses| && db.purses[p].group == group
    ensures IsScan(db, group, scan) && scan != [] && scan[|scan| - 1] == p
  {
    var front := Others(db.purses, group, p);
    scan := front + [p];
    forall q | 0 <= q < |db.purses| && db.purses[q].group == group ensures q in scan {
      assert q != p ==> q in front;
      assert scan[|front|] == p;
    }
  }

  lemma SomeScan(db: Db, group: nat) returns (scan: seq<nat>)
    ensures IsScan(db, group, scan)
  {
    scan := Others(db.purses, group, |db.purses|);
  }

  /** A fitting sweep leaves room for the shortfall on its last purse, and one that
      every purse covers fits in any order. */
  lemma FitInOrder(db: Db, group: nat, amount: Kobo, el: seq<Eligible>)
    requires Sweepable(amount, el) && ListsPool(db, group, el)
    ensures PoolWeight(db, group) > 0
    ensures EveryPurseCovers(db, group, amount) ==> Fit(el, Shares(amount, el), Balances(db))
    ensures Fit(el, Shares(amount, el), Balances(db)) ==>
      var p := el[|el| - 1].purse;
      Slice(db, group, amount, p) + Shortfall(db, group, amount) <= AvailableBalance(db, p)
  {
    PoolFigures(db, group, el, amount);
    SharesExact(amount, el);
    var shares := Shares(amount, el);
    assert shares[|el| - 1] == Slice(db, group, amount, el[|el| - 1].purse) + Shortfall(db, group, amount);
    if EveryPurseCovers(db, group, amount) {
      forall x | 0 <= x < |el| ensures shares[x] <= Balances(db)(el[x].purse) {
        assert Pays(db, group, el[x].purse);
        assert shares[x] <= Slice(db, group, amount, el[x].purse) + Shortfall(db, group, amount);
      }
    }
  }

  /** The request passes every check; whether it does has nothing to do with the scan. */
  predicate Affordable(db: Db, admin: Admin, req: PayoutRequest, gate: Gate) {
    CheckRequest(db, admin, req, gate).Ok? && req.amount <= CheckRequest(db, admin, req, gate).value
  }

  lemma AcceptedIffAffordable(db: Db, admin: Admin, req: PayoutRequest, gate: Gate, scan: seq<nat>)
    ensures CreatePayout(db, admin, req, gate, scan).1.Ok? <==> Affordable(db, admin, req, gate)
  {
  }

  ghost predicate SafeInAnyOrder(db: Db, admin: Admin, req: PayoutRequest, gate: Gate) {
    forall scan :: IsScan(db, admin.group, scan) ==> PursesSolvent(CreatePayout(db, admin, req, gate, scan).0)
  }

  lemma FitWhenCovered(db: Db, admin: Admin, req: PayoutRequest, gate: Gate, scan: seq<nat>)
    requires ContributionsOk(db) && PayoutsOk(db) && IsScan(db, admin.group, scan)
    requires req.purse.None? && Affordable(db, admin, req, gate)
    ensures PoolWeight(db, admin.group) > 0
    ensures EveryPurseCovers(db, admin.group, req.amount) ==> SharesFit(db, scan, req.amount)
  {
    SweepHasPayers(db, admin.group, scan, req.amount);
    ScanListsPool(db, admin.group, scan);
    FitInOrder(db, admin.group, req.amount, EligibleOf(db, scan));
  }

  lemma FitMeansLastCovers(db: Db, admin: Admin, req: PayoutRequest, gate: Gate, p: nat)
    requires ContributionsOk(db) && PayoutsOk(db) && req.purse.None? && Affordable(db, admin, req, gate)
    requires PoolWeight(db, admin.group) > 0 && Pays(db, admin.group, p)
    requires PursesSolvent(db) && SafeInAnyOrder(db, admin, req, gate)
    ensures Slice(db, admin.group, req.amount, p) + Shortfall(db, admin.group, req.amount) <= AvailableBalance(db, p)
  {
    var scan := SomeScanEndsAt(db, admin.group, p);
    AcceptedIffAffordable(db, admin, req, gate, scan);
    SweepKeepsPursesIff(db, admin, req, gate, scan);
    SweepHasPayers(db, admin.group, scan, req.amount);
    ScanListsPool(db, admin.group, scan);
    FitInOrder(db, admin.group, req.amount, EligibleOf(db, scan));
    LastIsEligible(db, scan);
  }

  lemma LastIsEligible(db: Db, scan: seq<nat>)
    requires scan != [] && AvailableBalance(db, scan[|scan| - 1]) > 0
    ensures var el := EligibleOf(db, scan); el != [] && el[|el| - 1].purse == scan[|scan| - 1]
  {
  }

  /** An accepted sweep over solvent purses is safe whatever order the purses are
      scanned in, if and only if every paying purse covers its slice of the sweep
      and the whole shortfall. */
  lemma SweepSafeInAnyOrderIff(db: Db, admin: Admin, req: PayoutRequest, gate: Gate)
    requires ContributionsOk(db) && PayoutsOk(db) && PursesSolvent(db)
    requires req.purse.None? && Affordable(db, admin, req, gate)
    ensures PoolWeight(db, admin.group) > 0
    ensures SafeInAnyOrder(db, admin, req, gate) <==> EveryPurseCovers(db, admin.group, req.amount)
  {
    hide ContributionsOk, PayoutsOk, PursesSolvent;
    var any := SomeScan(db, admin.group);
    FitWhenCovered(db, admin, req, gate, any);
    if EveryPurseCovers(db, admin.group, req.amount) {
      forall scan | IsScan(db, admin.group, scan)
        ensures PursesSolvent(CreatePayout(db, admin, req, gate, scan).0)
      {
        FitWhenCovered(db, admin, req, gate, scan);
        AcceptedIffAffordable(db, admin, req, gate, scan);
        SweepKeepsPursesIff(db, admin, req, gate, scan);
      }
    }
    if SafeInAnyOrder(db, admin, req, gate) {
      forall p | 0 <= p < |db.purses| && Pays(db, admin.group, p)
        ensures Slice(db, admin.group, req.amount, p) + Shortfall(db, admin.group, req.amount) <= AvailableBalance(db, p)
      {
        FitMeansLastCovers(db, admin, req, gate, p);
      }
    }
  }

  // ----- runs whose scans are up to the database -----

  /** The same step, but for the order of the scan. */
  predicate SameButScan(s: Step, t: Step) {
    if s.RequestPayout? then t.RequestPayout? && t == s.(scan := t.scan) else t == s
  }

  /** t is the beginning of the run, with scans of its own. */
  ghost predicate Rescans(t: seq<Step>, steps: seq<Step>) {
    |t| <= |steps| && forall x :: 0 <= x < |t| ==> SameButScan(steps[x], t[x])
  }

  /** However the database scans, the run never overdraws a purse. */
  ghost predicate SolventInAnyOrder(db: Db, steps: seq<Step>) {
    forall t :: Rescans(t, steps) && ValidRun(db, t) ==> PursesSolvent(Run(db, t))
  }

  /** Before a step that is a sweep, every paying purse covers it. */
  predicate Covers(db: Db, step: Step) {
    step.RequestPayout? && step.req.purse.None? && Affordable(db, step.admin, step.req, step.gate) ==>
      EveryPurseCovers(db, step.admin.group, step.req.amount)
  }

  ghost predicate CoveredInAnyOrder(db: Db, steps: seq<Step>) {
    forall t :: Rescans(t, steps) && ValidRun(db, t) && |t| < |steps| ==> Covers(Run(db, t), steps[|t|])
  }

  lemma CoveredStepKeepsSolvent(db: Db, step: Step, asked: Step)
    requires Inv(db) && Admissible(db, step) && PursesSolvent(db) && SameButScan(asked, step) && Covers(db, asked)
    ensures PursesSolvent(Apply(db, step))
  {
    if step.RequestPayout? {
      AcceptedIffAffordable(db, step.admin, step.req, step.gate, step.scan);
      if AcceptsSweep(db, step) {
        FitWhenCovered(db, step.admin, step.req, step.gate, step.scan);
      }
    }
    SolventStepIff(db, step);
  }

  lemma CoveredBefore(db: Db, steps: seq<Step>, t: seq<Step>)
    requires CoveredInAnyOrder(db, steps) && Rescans(t, steps) && ValidRun(db, t) && |t| < |steps|
    ensures Covers(Run(db, t), steps[|t|])
  {
    hide Covers, Run, ValidRun;
  }

  lemma {:induction false} CoveredRunSolvent(db: Db, steps: seq<Step>, t: seq<Step>)
    requires Inv(db) && PursesSolvent(db) && CoveredInAnyOrder(db, steps)
    requires Rescans(t, steps) && ValidRun(db, t)
    ensures PursesSolvent(Run(db, t))
    decreases |t|
  {
    hide PursesSolvent, Inv, Apply, Admissible, Covers, Run, ValidRun, CoveredInAnyOrder;
    if t == [] {
      NoStepsNoChange(db);
    } else {
      var n := |t| - 1;
      LastStep(db, t);
      assert Rescans(t[..n], steps);
      CoveredRunSolvent(db, steps, t[..n]);
      RunKeeps(db, t[..n]);
      CoveredBefore(db, steps, t[..n]);
      CoveredStepKeepsSolvent(Run(db, t[..n]), t[n], steps[n]);
    }
  }

  lemma AnyScanCouldFollow(db: Db, steps: seq<Step>, t: seq<Step>, scan: seq<nat>)
    requires SolventInAnyOrder(db, steps)
    requires Rescans(t, steps) && ValidRun(db, t) && |t| < |steps| && steps[|t|].RequestPayout?
    requires IsScan(Run(db, t), steps[|t|].admin.group, scan)
    ensures var step := steps[|t|];
      PursesSolvent(CreatePayout(Run(db, t), step.admin, step.req, step.gate, scan).0)
  {
    hide PursesSolvent, Apply, CreatePayout;
    var step := steps[|t|].(scan := scan);
    var longer := t + [step];
    assert longer[..|t|] == t;
    assert Rescans(longer, steps) && ValidRun(db, longer);
    assert Run(db, longer) == Apply(Run(db, t), step);
    RequestCreates(Run(db, t), step);
  }

  lemma UncoveredSweepOverdraws(db: Db, steps: seq<Step>, t: seq<Step>)
    requires Inv(db) && SolventInAnyOrder(db, steps)
    requires Rescans(t, steps) && ValidRun(db, t) && |t| < |steps|
    ensures Covers(Run(db, t), steps[|t|])
  {
    hide PursesSolvent;
    var now, step := Run(db, t), steps[|t|];
    if step.RequestPayout? && step.req.purse.None? && Affordable(now, step.admin, step.req, step.gate) {
      RunKeeps(db, t);
      forall scan | IsScan(now, step.admin.group, scan)
        ensures PursesSolvent(CreatePayout(now, step.admin, step.req, step.gate, scan).0)
      {
        AnyScanCouldFollow(db, steps, t, scan);
      }
      SweepSafeInAnyOrderIff(now, step.admin, step.req, step.gate);
    }
  }

  /** A run of any mixture of payouts never overdraws a purse, in whatever order
      the database scans purses, if and only if every sweep is covered by every
      purse it draws on when it is requested. */
  lemma SolventInAnyOrderIff(db: Db, steps: seq<Step>)
    requires Inv(db) && PursesSolvent(db)
    ensures SolventInAnyOrder(db, steps) <==> CoveredInAnyOrder(db, steps)
  {
    hide Inv, PursesSolvent;
    if SolventInAnyOrder(db, steps) {
      forall t | Rescans(t, steps) && ValidRun(db, t) && |t| < |steps| ensures Covers(Run(db, t), steps[|t|]) {
        UncoveredSweepOverdraws(db, steps, t);
      }
    }
    if CoveredInAnyOrder(db, steps) {
      forall t | Rescans(t, steps) && ValidRun(db, t) ensures PursesSolvent(Run(db, t)) {
        CoveredRunSolvent(db, steps, t);
      }
    }
  }

  /** Solvent purses make solvent groups, so such a run overdraws no group either. */
  lemma CoveredRunsOverdrawNothing(groups: nat, steps: seq<Step>)
    requires ValidRun(EmptyDb(groups), steps) && CoveredInAnyOrder(EmptyDb(groups), steps)
    ensures PursesSolvent(Run(EmptyDb(groups), steps)) && GroupsSolvent(Run(EmptyDb(groups), steps))
  {
    EmptySolvent(groups);
    CoveredRunSolvent(EmptyDb(groups), steps, steps);
    RunKeeps(EmptyDb(groups), steps);
    SolventPursesMakeSolventGroups(Run(EmptyDb(groups), steps));
  }
}
