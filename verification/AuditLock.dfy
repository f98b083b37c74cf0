/** Any number of transactions appending to the audit log at once, step by step:
    lock the head row, read it, insert a row, update the head, commit or roll back. */
module AuditLock {
  import opened Rows
  import opened AuditPayload
  import opened AuditChain

  /** Where a transaction that has locked the head row is inside an append. */
  datatype Phase = Locked | Read(prev: Option<string>) | Inserted(rowHash: string)

  /** began is the transaction's start, and pending its own uncommitted update of the head. */
  datatype Txn = Txn(began: Time, phase: Phase, pending: Option<string>)

  /** A row of the table; owner is the transaction that has not committed it yet. */
  datatype Stored = Stored(row: AuditRow, owner: Option<nat>)

  /** The table in insertion order, the committed head, and the transactions
      that have asked for the head row. */
  datatype State = State(table: seq<Stored>, head: Option<string>, txns: map<nat, Txn>)

  datatype Step =
    | Lock(w: nat, began: Time)
    | ReadHead(w: nat)
    | Insert(w: nat, id: nat, entry: Entry)
    | UpdateHead(w: nat)
    | Commit(w: nat)
    | Rollback(w: nat)

  const INIT := State([], None, map[])

  function AllRows(table: seq<Stored>): (r: seq<AuditRow>)
    ensures |r| == |table| && forall i :: 0 <= i < |table| ==> r[i] == table[i].row
  {
    seq(|table|, i requires 0 <= i < |table| => table[i].row)
  }

  /** The committed rows, in insertion order: what a verifier reads. */
  function Visible(table: seq<Stored>): seq<AuditRow> {
    if table == [] then []
    else
      var n := |table| - 1;
      if table[n].owner.None? then Visible(table[..n]) + [table[n].row] else Visible(table[..n])
  }

  function Committed(table: seq<Stored>, w: nat): (r: seq<Stored>)
    ensures |r| == |table|
    ensures forall i :: 0 <= i < |table| ==>
      r[i] == if table[i].owner == Some(w) then table[i].(owner := None) else table[i]
  {
    seq(|table|, i requires 0 <= i < |table| =>
      if table[i].owner == Some(w) then table[i].(owner := None) else table[i])
  }

  function Without(table: seq<Stored>, w: nat): seq<Stored> {
    if table == [] then []
    else
      var n := |table| - 1;
      if table[n].owner == Some(w) then Without(table[..n], w) else Without(table[..n], w) + [table[n]]
  }

  /** With exclusive locking, a transaction gets the head row only when no other has it. */
  predicate Enabled(s: State, step: Step, exclusive: bool) {
    match step
    case Lock(w, _) => (w in s.txns ==> s.txns[w].phase.Locked?) && (exclusive ==> forall v :: v in s.txns ==> v == w)
    case ReadHead(w) => w in s.txns && s.txns[w].phase.Locked?
    case Insert(w, _, _) => w in s.txns && s.txns[w].phase.Read?
    case UpdateHead(w) => w in s.txns && s.txns[w].phase.Inserted?
    case Commit(w) => w in s.txns && s.txns[w].phase.Locked?
    case Rollback(w) => w in s.txns
  }

  /** The head as transaction w sees it: its own update, or the committed one. */
  function Seen(s: State, w: nat): Option<string>
    requires w in s.txns
  {
    if s.txns[w].pending.Some? then s.txns[w].pending else s.head
  }

  function NewRow(s: State, w: nat, id: nat, entry: Entry, hash: Hash): AuditRow
    requires w in s.txns && s.txns[w].phase.Read?
  {
    var prev := s.txns[w].phase.prev;
    AuditRow(id, s.txns[w].began, entry, prev, hash(RowPayload(entry, prev)))
  }

  function Apply(s: State, step: Step, hash: Hash): State
    requires Enabled(s, step, false)
  {
    match step
    case Lock(w, began) => if w in s.txns then s else s.(txns := s.txns[w := Txn(began, Locked, None)])
    case ReadHead(w) => s.(txns := s.txns[w := s.txns[w].(phase := Read(Seen(s, w)))])
    case Insert(w, id, entry) =>
      var row := NewRow(s, w, id, entry, hash);
      s.(table := s.table + [Stored(row, Some(w))], txns := s.txns[w := s.txns[w].(phase := Inserted(row.rowHash))])
    case UpdateHead(w) => s.(txns := s.txns[w := s.txns[w].(phase := Locked, pending := Some(s.txns[w].phase.rowHash))])
    case Commit(w) => State(Committed(s.table, w), Seen(s, w), s.txns - {w})
    case Rollback(w) => State(Without(s.table, w), s.head, s.txns - {w})
  }

  /** s' is reached from s by these steps, each enabled in its turn. */
  ghost predicate Reaches(s: State, steps: seq<Step>, s': State, hash: Hash, exclusive: bool)
    decreases |steps|
  {
    if steps == [] then s' == s
    else
      var n := |steps| - 1;
      exists mid ::
        && Reaches(s, steps[..n], mid, hash, exclusive)
        && Enabled(mid, steps[n], exclusive) && s' == Apply(mid, steps[n], hash)
  }

  // ----- the invariant -----

  /** Uncommitted rows all come last. */
  ghost predicate CommittedFirst(table: seq<Stored>) {
    forall i, j :: 0 <= i < j < |table| && table[j].owner.None? ==> table[i].owner.None?
  }

  predicate InStep(s: State, w: nat)
    requires w in s.txns
  {
    var tip := LastHash(AllRows(s.table));
    match s.txns[w].phase
    case Locked => Seen(s, w) == tip
    case Read(prev) => prev == tip
    case Inserted(rowHash) => Some(rowHash) == tip
  }

  ghost predicate Owned(s: State) {
    forall i :: 0 <= i < |s.table| && s.table[i].owner.Some? ==> s.table[i].owner.value in s.txns
  }

  ghost predicate Inv(s: State, hash: Hash) {
    && (forall v, w :: v in s.txns && w in s.txns ==> v == w)
    && CommittedFirst(s.table) && Owned(s)
    && Chained(AllRows(s.table), hash)
    && s.head == LastHash(Visible(s.table))
    && forall w :: w in s.txns ==> InStep(s, w)
  }

  lemma {:induction false} VisibleIsPrefix(table: seq<Stored>)
    requires CommittedFirst(table)
    ensures |Visible(table)| <= |table| && Visible(table) == AllRows(table)[..|Visible(table)|]
    ensures forall i :: 0 <= i < |table| ==> (i < |Visible(table)| <==> table[i].owner.None?)
  {
    if table != [] {
      var n := |table| - 1;
      VisibleIsPrefix(table[..n]);
      assert AllRows(table[..n]) == AllRows(table)[..n];
    }
  }

  lemma AllCommitted(table: seq<Stored>)
    requires forall i :: 0 <= i < |table| ==> table[i].owner.None?
    ensures Visible(table) == AllRows(table)
  {
  }

  lemma {:induction false} WithoutLeavesVisible(table: seq<Stored>, w: nat)
    requires forall i :: 0 <= i < |table| ==> table[i].owner == None || table[i].owner == Some(w)
    ensures AllRows(Without(table, w)) == Visible(table)
    ensures forall i :: 0 <= i < |Without(table, w)| ==> Without(table, w)[i].owner.None?
  {
    if table != [] {
      var n := |table| - 1;
      WithoutLeavesVisible(table[..n], w);
      assert Without(table, w)[..|Without(table, w)|] == Without(table, w);
    }
  }

  lemma CommitKeeps(s: State, w: nat, hash: Hash)
    requires Inv(s, hash) && Enabled(s, Commit(w), true)
    ensures var s' := Apply(s, Commit(w), hash); Inv(s', hash) && Visible(s.table) <= Visible(s'.table)
    ensures Visible(Apply(s, Commit(w), hash).table) == AllRows(s.table)
  {
    var s' := Apply(s, Commit(w), hash);
    assert InStep(s, w);
    VisibleIsPrefix(s.table);
    AllCommitted(s'.table);
    assert AllRows(s'.table) == AllRows(s.table);
  }

  lemma RollbackKeeps(s: State, w: nat, hash: Hash)
    requires Inv(s, hash) && Enabled(s, Rollback(w), true)
    ensures var s' := Apply(s, Rollback(w), hash); Inv(s', hash) && Visible(s'.table) == Visible(s.table)
  {
    var s' := Apply(s, Rollback(w), hash);
    WithoutLeavesVisible(s.table, w);
    AllCommitted(s'.table);
    VisibleIsPrefix(s.table);
    PrefixChained(AllRows(s.table), |Visible(s.table)|, hash);
  }

  lemma InsertKeeps(s: State, w: nat, id: nat, entry: Entry, hash: Hash)
    requires Inv(s, hash) && Enabled(s, Insert(w, id, entry), true)
    ensures var s' := Apply(s, Insert(w, id, entry), hash); Inv(s', hash) && Visible(s'.table) == Visible(s.table)
  {
    hide Sealed;
    var s' := Apply(s, Insert(w, id, entry), hash);
    var row := NewRow(s, w, id, entry, hash);
    assert InStep(s, w);
    AppendChained(AllRows(s.table), row, hash);
    assert AllRows(s'.table) == AllRows(s.table) + [row];
    assert s'.table[..|s.table|] == s.table;
    assert InStep(s', w);
  }

  /** Every step keeps the whole table one chain, and never loses a committed row. */
  lemma StepKeeps(s: State, step: Step, hash: Hash)
    requires Inv(s, hash) && Enabled(s, step, true)
    ensures var s' := Apply(s, step, hash); Inv(s', hash) && Visible(s.table) <= Visible(s'.table)
  {
    match step
    case Commit(w) => CommitKeeps(s, w, hash);
    case Rollback(w) => RollbackKeeps(s, w, hash);
    case Insert(w, id, entry) => InsertKeeps(s, w, id, entry, hash);
    case Lock(w, _) =>
      VisibleIsPrefix(s.table);
      assert w !in s.txns ==> s.txns == map[];
      assert w !in s.txns ==> AllRows(s.table) == Visible(s.table);
    case ReadHead(w) => assert InStep(s, w);
    case UpdateHead(w) => assert InStep(s, w);
  }

  /** Over any run of steps from a good state, committed rows stay as they are. */
  lemma {:induction false} RunKeeps(s0: State, steps: seq<Step>, s: State, hash: Hash)
    requires Inv(s0, hash) && Reaches(s0, steps, s, hash, true)
    ensures Inv(s, hash) && Visible(s0.table) <= Visible(s.table)
  {
    if steps != [] {
      var n := |steps| - 1;
      var mid :| Reaches(s0, steps[..n], mid, hash, true) && Enabled(mid, steps[n], true) &&
        s == Apply(mid, steps[n], hash);
      RunKeeps(s0, steps[..n], mid, hash);
      StepKeeps(mid, steps[n], hash);
    }
  }

  // ----- what holds after any interleaving -----

  /** However the writers interleave, the committed rows in insertion order are
      one chain ending at the head, and verification accepts them. */
  lemma CommittedRowsVerify(steps: seq<Step>, s: State, hash: Hash, v: Verdict)
    requires Reaches(INIT, steps, s, hash, true) && Reports(Visible(s.table), hash, v)
    ensures v == Valid && s.head == LastHash(Visible(s.table))
  {
    RunKeeps(INIT, steps, s, hash);
    VisibleIsPrefix(s.table);
    PrefixChained(AllRows(s.table), |Visible(s.table)|, hash);
    assert BreaksAt(Visible(s.table), hash, Valid, |Visible(s.table)|);
    OneVerdict(Visible(s.table), hash, v, Valid);
  }

  /** As the query orders them, the committed rows are accepted if and only if
      they were created, that is their transactions began, in insertion order. */
  lemma CommittedRowsAcceptedIff(steps: seq<Step>, s: State, fetched: seq<AuditRow>, hash: Hash, v: Verdict)
    requires Reaches(INIT, steps, s, hash, true) && NonEmpty(hash) && UniqueIds(Visible(s.table))
    requires EntriesOk(Visible(s.table)) && CollisionFree(Visible(s.table), Visible(s.table), hash)
    requires InQueryOrder(Visible(s.table), fetched) && Reports(fetched, hash, v)
    ensures v == Valid <==> InsertedInOrder(Visible(s.table))
  {
    hide NonEmpty, EntriesOk, CollisionFree, InQueryOrder, Reports;
    RunKeeps(INIT, steps, s, hash);
    VisibleIsPrefix(s.table);
    PrefixChained(AllRows(s.table), |Visible(s.table)|, hash);
    HonestLogAcceptedIff(Visible(s.table), fetched, hash, v);
  }

  /** No two committed rows continue the same row. */
  lemma CommittedRowsDoNotFork(steps: seq<Step>, s: State, hash: Hash, i: nat, j: nat)
    requires Reaches(INIT, steps, s, hash, true) && NonEmpty(hash)
    requires EntriesOk(Visible(s.table)) && CollisionFree(Visible(s.table), Visible(s.table), hash)
    requires i < j < |Visible(s.table)|
    ensures Visible(s.table)[i].prevHash != Visible(s.table)[j].prevHash
  {
    var rows := Visible(s.table);
    RunKeeps(INIT, steps, s, hash);
    VisibleIsPrefix(s.table);
    PrefixChained(AllRows(s.table), |rows|, hash);
    assert Fits(rows, i, hash) && Fits(rows, j, hash);
    HashesDistinct(rows, i, j, hash);
  }

  // ----- runs that go wrong -----

  lemma ThenStep(steps: seq<Step>, s: State, step: Step, hash: Hash, exclusive: bool) returns (steps': seq<Step>, s': State)
    requires Reaches(INIT, steps, s, hash, exclusive) && Enabled(s, step, exclusive)
    ensures s' == Apply(s, step, hash) && Reaches(INIT, steps', s', hash, exclusive)
  {
    steps', s' := steps + [step], Apply(s, step, hash);
    assert steps'[..|steps|] == steps;
  }

  /** Two writers have each read the empty head. */
  lemma BothReadEmptyHead(hash: Hash) returns (steps: seq<Step>, s: State)
    ensures Reaches(INIT, steps, s, hash, false)
    ensures s == State([], None, map[0 := Txn(1, Read(None), None), 1 := Txn(1, Read(None), None)])
  {
    hide Reaches;
    ReachesStart(hash, false);
    steps, s := ThenStep([], INIT, Lock(0, 1), hash, false);
    steps, s := ThenStep(steps, s, Lock(1, 1), hash, false);
    steps, s := ThenStep(steps, s, ReadHead(0), hash, false);
    steps, s := ThenStep(steps, s, ReadHead(1), hash, false);
  }

  lemma ReachesStart(hash: Hash, exclusive: bool)
    ensures Reaches(INIT, [], INIT, hash, exclusive)
  {
  }

  function RowAfter(id: nat, createdAt: Time, e: Entry, prev: Option<string>, hash: Hash): AuditRow {
    AuditRow(id, createdAt, e, prev, hash(RowPayload(e, prev)))
  }

  /** A chain that continues with a row that does not follow on. */
  lemma SecondRowBreaks(r: AuditRow, r': AuditRow, hash: Hash)
    requires Sealed(r, hash) && r.prevHash == None && r'.prevHash != Some(r.rowHash)
    ensures Reports([r, r'], hash, BrokenLink(r'.id))
  {
    hide Sealed;
    assert Fits([r, r'], 0, hash);
    assert BreaksAt([r, r'], hash, BrokenLink(r'.id), 1);
  }

  lemma BothInserted(hash: Hash, e: Entry, f: Entry) returns (steps: seq<Step>, s: State)
    ensures Reaches(INIT, steps, s, hash, false)
    ensures s.table == [Stored(RowAfter(0, 1, e, None, hash), Some(0)), Stored(RowAfter(1, 1, f, None, hash), Some(1))]
    ensures 0 in s.txns && s.txns[0].phase.Locked? && 1 in s.txns && s.txns[1].phase.Locked?
  {
    hide Reaches, RowPayload;
    steps, s := BothReadEmptyHead(hash);
    steps, s := ThenStep(steps, s, Insert(0, 0, e), hash, false);
    steps, s := ThenStep(steps, s, Insert(1, 1, f), hash, false);
    steps, s := ThenStep(steps, s, UpdateHead(0), hash, false);
    steps, s := ThenStep(steps, s, UpdateHead(1), hash, false);
  }

  /** Without the lock the same code forks: two writers that both read the empty
      head commit two first rows, and verification blames the second. */
  lemma UnlockedWritersFork(hash: Hash, e: Entry, f: Entry)
    ensures exists steps: seq<Step>, s: State ::
      Reaches(INIT, steps, s, hash, false) && Reports(Visible(s.table), hash, BrokenLink(1))
  {
    hide Reaches, RowPayload, Reports;
    var r0, r1 := RowAfter(0, 1, e, None, hash), RowAfter(1, 1, f, None, hash);
    var steps, s := BothInserted(hash, e, f);
    steps, s := ThenStep(steps, s, Commit(0), hash, false);
    steps, s := ThenStep(steps, s, Commit(1), hash, false);
    AllCommitted(s.table);
    assert AllRows(s.table) == [r0, r1];
    SecondRowBreaks(r0, r1, hash);
  }

  /** One whole append by a transaction that began at this time. */
  lemma ThenAppend(steps: seq<Step>, s: State, w: nat, began: Time, e: Entry, hash: Hash)
    returns (steps': seq<Step>, s': State)
    requires Reaches(INIT, steps, s, hash, true) && s.txns == map[]
    ensures Reaches(INIT, steps', s', hash, true) && s'.txns == map[]
    ensures s'.table == Committed(s.table + [Stored(RowAfter(w, began, e, s.head, hash), Some(w))], w)
    ensures s'.head == Some(RowAfter(w, began, e, s.head, hash).rowHash)
  {
    hide Reaches, RowPayload;
    steps', s' := ThenStep(steps, s, Lock(w, began), hash, true);
    steps', s' := ThenStep(steps', s', ReadHead(w), hash, true);
    steps', s' := ThenStep(steps', s', Insert(w, w, e), hash, true);
    steps', s' := ThenStep(steps', s', UpdateHead(w), hash, true);
    steps', s' := ThenStep(steps', s', Commit(w), hash, true);
  }

  /** Two honest writers under the lock, where the one that began first gets the
      head last: the query returns its row first, and verification rejects a log
      that nobody has touched. */
  lemma LateWriterIsBlamed(hash: Hash, e: Entry, f: Entry) returns (steps: seq<Step>, s: State, fetched: seq<AuditRow>)
    ensures Reaches(INIT, steps, s, hash, true)
    ensures Chained(Visible(s.table), hash) && InQueryOrder(Visible(s.table), fetched)
    ensures Reports(fetched, hash, BrokenLink(1))
  {
    hide Reaches, RowPayload, Sealed;
    ReachesStart(hash, true);
    steps, s := ThenAppend([], INIT, 0, 2, e, hash);
    var r0 := RowAfter(0, 2, e, None, hash);
    assert s.table == [Stored(r0, None)];
    steps, s := ThenAppend(steps, s, 1, 1, f, hash);
    var r1 := RowAfter(1, 1, f, Some(r0.rowHash), hash);
    assert s.table == [Stored(r0, None), Stored(r1, None)];
    RunKeeps(INIT, steps, s, hash);
    AllCommitted(s.table);
    assert AllRows(s.table) == [r0, r1];
    fetched := [r1, r0];
    SwappedIsRejected(r0, r1, hash);
  }

  lemma SwappedIsRejected(r: AuditRow, r': AuditRow, hash: Hash)
    requires r'.createdAt < r.createdAt && r'.prevHash != None
    ensures InQueryOrder([r, r'], [r', r]) && Reports([r', r], hash, BrokenLink(r'.id))
  {
    hide Sealed;
    assert multiset([r', r]) == multiset([r, r']);
    assert BreaksAt([r', r], hash, BrokenLink(r'.id), 0);
  }
}
