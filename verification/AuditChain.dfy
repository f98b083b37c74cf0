/** The hash chain over the audit log: how a row is appended, how the whole log
    is verified, and exactly which changes to a log verification notices. */
module AuditChain {
  import opened Rows
  import opened AuditPayload

  /** createdAt is the database's default for the column: the time at which the
      inserting transaction began. */
  datatype AuditRow = AuditRow(id: nat, createdAt: Time, entry: Entry, prevHash: Option<string>, rowHash: string)

  type Hash = string -> string

  /** A digest is never the empty string, which stands for "no previous row". */
  ghost predicate NonEmpty(hash: Hash) {
    forall p :: hash(p) != ""
  }

  function LastHash(rows: seq<AuditRow>): Option<string> {
    if rows == [] then None else Some(rows[|rows| - 1].rowHash)
  }

  /** The hash that row i has to be chained to. */
  function PrevOf(rows: seq<AuditRow>, i: nat): Option<string>
    requires i <= |rows|
  {
    if i == 0 then None else Some(rows[i - 1].rowHash)
  }

  predicate Linked(rows: seq<AuditRow>, i: nat)
    requires i < |rows|
  {
    rows[i].prevHash == PrevOf(rows, i)
  }

  /** The row's hash is that of its own content. */
  predicate Sealed(r: AuditRow, hash: Hash) {
    r.rowHash == hash(RowPayload(r.entry, r.prevHash))
  }

  predicate Fits(rows: seq<AuditRow>, i: nat, hash: Hash)
    requires i < |rows|
  {
    Linked(rows, i) && Sealed(rows[i], hash)
  }

  ghost predicate ChainedTo(rows: seq<AuditRow>, n: nat, hash: Hash)
    requires n <= |rows|
  {
    forall i {:trigger Fits(rows, i, hash)} :: 0 <= i < n ==> Fits(rows, i, hash)
  }

  ghost predicate Chained(rows: seq<AuditRow>, hash: Hash) {
    ChainedTo(rows, |rows|, hash)
  }

  // ----- appending and verifying -----

  /** The id names the first row at which the walk stops. */
  datatype Verdict = Valid | BrokenLink(id: nat) | BrokenContent(id: nat)

  ghost predicate LinkBreaksAt(rows: seq<AuditRow>, hash: Hash, i: nat) {
    i < |rows| && ChainedTo(rows, i, hash) && !Linked(rows, i)
  }

  ghost predicate ContentBreaksAt(rows: seq<AuditRow>, hash: Hash, i: nat) {
    i < |rows| && ChainedTo(rows, i, hash) && Linked(rows, i) && !Sealed(rows[i], hash)
  }

  ghost predicate BreaksAt(rows: seq<AuditRow>, hash: Hash, v: Verdict, i: nat) {
    match v
    case Valid => i == |rows| && Chained(rows, hash)
    case BrokenLink(id) => LinkBreaksAt(rows, hash, i) && rows[i].id == id
    case BrokenContent(id) => ContentBreaksAt(rows, hash, i) && rows[i].id == id
  }

  /** What verification of these rows must answer. */
  ghost predicate Reports(rows: seq<AuditRow>, hash: Hash, v: Verdict) {
    exists i: nat :: BreaksAt(rows, hash, v, i)
  }

  lemma OneBreak(rows: seq<AuditRow>, hash: Hash, i: nat, j: nat)
    requires i < |rows| && ChainedTo(rows, i, hash) && !Fits(rows, i, hash)
    requires j <= |rows| && ChainedTo(rows, j, hash)
    ensures j <= i
  {
  }

  /** There is only one right answer, so verification accepts exactly the chained logs. */
  lemma OneVerdict(rows: seq<AuditRow>, hash: Hash, v: Verdict, w: Verdict)
    requires Reports(rows, hash, v) && Reports(rows, hash, w)
    ensures v == w
  {
    var i: nat :| BreaksAt(rows, hash, v, i);
    var j: nat :| BreaksAt(rows, hash, w, j);
    if i < |rows| {
      OneBreak(rows, hash, i, j);
    }
    if j < |rows| {
      OneBreak(rows, hash, j, i);
    }
  }

  predicate Before(r: AuditRow, s: AuditRow) {
    r.createdAt < s.createdAt || (r.createdAt == s.createdAt && r.id < s.id)
  }

  /** The same rows, ordered by creation time and then id. */
  ghost predicate InQueryOrder(rows: seq<AuditRow>, fetched: seq<AuditRow>) {
    && multiset(fetched) == multiset(rows)
    && forall i, j :: 0 <= i < j < |fetched| ==> !Before(fetched[j], fetched[i])
  }

  class AuditService {
    const hash: Hash
    var rows: seq<AuditRow>
    var head: Option<string>

    ghost predicate Consistent()
      reads this
    {
      head == LastHash(rows) && Chained(rows, hash)
    }

    constructor (hash: Hash)
      ensures this.hash == hash && rows == [] && head == None && Consistent()
    {
      this.hash := hash;
      rows := [];
      head := None;
    }

    /** Appends a row chained to the head, and moves the head to it. */
    method RecordEvent(entry: Entry, id: nat, createdAt: Time) returns (row: AuditRow)
      modifies this
      ensures rows == old(rows) + [row] && head == Some(row.rowHash)
      ensures row.entry == entry && row.id == id && row.createdAt == createdAt
      ensures row.prevHash == old(head) && Sealed(row, hash)
      ensures old(Consistent()) ==> Consistent()
    {
      var prev := head;
      row := AuditRow(id, createdAt, entry, prev, hash(RowPayload(entry, prev)));
      AppendChained(rows, row, hash);
      rows := rows + [row];
      head := Some(row.rowHash);
    }

    /** Walks the rows in the order the query returns them. */
    method VerifyChain(fetched: seq<AuditRow>) returns (v: Verdict)
      requires InQueryOrder(rows, fetched)
      ensures Reports(fetched, hash, v)
    {
      var prev: Option<string> := None;
      var i := 0;
      while i < |fetched|
        invariant 0 <= i <= |fetched| && ChainedTo(fetched, i, hash) && prev == PrevOf(fetched, i)
      {
        var row := fetched[i];
        if row.prevHash != prev {
          assert BreaksAt(fetched, hash, BrokenLink(row.id), i);
          return BrokenLink(row.id);
        }
        if row.rowHash != hash(RowPayload(row.entry, prev)) {
          assert BreaksAt(fetched, hash, BrokenContent(row.id), i);
          return BrokenContent(row.id);
        }
        prev := Some(row.rowHash);
        i := i + 1;
      }
      assert BreaksAt(fetched, hash, Valid, i);
      return Valid;
    }
  }

  lemma AppendChained(rows: seq<AuditRow>, row: AuditRow, hash: Hash)
    requires Sealed(row, hash)
    ensures Chained(rows, hash) && row.prevHash == LastHash(rows) ==> Chained(rows + [row], hash)
  {
    var all := rows + [row];
    if Chained(rows, hash) && row.prevHash == LastHash(rows) {
      forall i | 0 <= i < |all| ensures Fits(all, i, hash) {
        assert i < |rows| ==> Fits(rows, i, hash);
      }
    }
  }

  lemma PrefixChained(rows: seq<AuditRow>, n: nat, hash: Hash)
    requires n <= |rows| && Chained(rows, hash)
    ensures Chained(rows[..n], hash)
  {
    forall i | 0 <= i < n ensures Fits(rows[..n], i, hash) {
      assert Fits(rows, i, hash);
    }
  }

  // ----- tamper evidence -----

  ghost predicate EntriesOk(rows: seq<AuditRow>) {
    forall i :: 0 <= i < |rows| ==> EntryOk(rows[i].entry)
  }

  /** No collision of the hash shows up among the rows of the two logs. */
  ghost predicate CollisionFree(a: seq<AuditRow>, b: seq<AuditRow>, hash: Hash) {
    forall i, j :: 0 <= i < |a| && 0 <= j < |b| ==> NoCollision(a[i], b[j], hash)
  }

  predicate NoCollision(r: AuditRow, s: AuditRow, hash: Hash) {
    hash(RowPayload(r.entry, r.prevHash)) == hash(RowPayload(s.entry, s.prevHash)) ==>
      RowPayload(r.entry, r.prevHash) == RowPayload(s.entry, s.prevHash)
  }

  /** Everything but the id agrees. */
  predicate SameRow(r: AuditRow, s: AuditRow) {
    r.entry == s.entry && r.prevHash == s.prevHash && r.rowHash == s.rowHash
  }

  ghost predicate SameRows(a: seq<AuditRow>, b: seq<AuditRow>) {
    |a| == |b| && forall i :: 0 <= i < |a| ==> SameRow(a[i], b[i])
  }

  lemma SealUnique(r: AuditRow, s: AuditRow, hash: Hash)
    requires EntryOk(r.entry) && EntryOk(s.entry) && NoCollision(r, s, hash)
    requires Sealed(r, hash) && Sealed(s, hash) && r.rowHash == s.rowHash
    requires r.prevHash != Some("") && s.prevHash != Some("")
    ensures SameRow(r, s)
  {
    PayloadUnique(r.entry, s.entry, r.prevHash, s.prevHash);
  }

  lemma PrevNonEmpty(rows: seq<AuditRow>, i: nat, hash: Hash)
    requires NonEmpty(hash) && i < |rows| && ChainedTo(rows, i + 1, hash)
    ensures rows[i].prevHash != Some("")
  {
    assert Fits(rows, i, hash);
    if i > 0 {
      assert Fits(rows, i - 1, hash);
    }
  }

  lemma PrefixPremises(a: seq<AuditRow>, b: seq<AuditRow>, m: nat, n: nat, hash: Hash)
    requires EntriesOk(a) && EntriesOk(b) && CollisionFree(a, b, hash) && m <= |a| && n <= |b|
    ensures EntriesOk(a[..m]) && EntriesOk(b[..n]) && CollisionFree(a[..m], b[..n], hash)
  {
  }

  lemma LastRow(rows: seq<AuditRow>, hash: Hash)
    requires NonEmpty(hash) && Chained(rows, hash) && rows != []
    ensures var n := |rows| - 1;
      Sealed(rows[n], hash) && rows[n].prevHash == LastHash(rows[..n]) && rows[n].prevHash != Some("")
  {
    assert Fits(rows, |rows| - 1, hash);
    PrevNonEmpty(rows, |rows| - 1, hash);
  }

  lemma SameRowsPush(a: seq<AuditRow>, b: seq<AuditRow>)
    requires a != [] && b != []
    requires SameRows(a[..|a| - 1], b[..|b| - 1]) && SameRow(a[|a| - 1], b[|b| - 1])
    ensures SameRows(a, b)
  {
  }

  /** Two verified logs that end in the same row hash are the same log. */
  lemma {:induction false} SameTip(a: seq<AuditRow>, b: seq<AuditRow>, hash: Hash)
    requires NonEmpty(hash) && EntriesOk(a) && EntriesOk(b) && CollisionFree(a, b, hash)
    requires Chained(a, hash) && Chained(b, hash) && LastHash(a) == LastHash(b)
    ensures SameRows(a, b)
    decreases |a|
  {
    if a != [] {
      var m, n := |a| - 1, |b| - 1;
      LastRow(a, hash);
      LastRow(b, hash);
      assert NoCollision(a[m], b[n], hash);
      SealUnique(a[m], b[n], hash);
      PrefixPremises(a, b, m, n, hash);
      PrefixChained(a, m, hash);
      PrefixChained(b, n, hash);
      SameTip(a[..m], b[..n], hash);
      SameRowsPush(a, b);
    }
  }

  /** No two rows of a verified log share a hash: the log never forks or loops. */
  lemma HashesDistinct(rows: seq<AuditRow>, i: nat, j: nat, hash: Hash)
    requires NonEmpty(hash) && EntriesOk(rows) && CollisionFree(rows, rows, hash) && Chained(rows, hash)
    requires i < j <= |rows|
    ensures PrevOf(rows, i) != PrevOf(rows, j)
  {
    if PrevOf(rows, i) == PrevOf(rows, j) {
      PrefixChained(rows, i, hash);
      PrefixChained(rows, j, hash);
      PrefixPremises(rows, rows, i, j, hash);
      SameTip(rows[..i], rows[..j], hash);
    }
  }

  /** What overwriting row i with r does to a verified log, in full: a rewrite of
      an inner row is always noticed, at that row or the next; a rewrite of the
      last row is noticed exactly when the new row is not consistent in itself. */
  lemma OverwriteVerdict(rows: seq<AuditRow>, i: nat, r: AuditRow, hash: Hash, v: Verdict)
    requires NonEmpty(hash) && Chained(rows, hash) && i < |rows|
    requires EntryOk(r.entry) && EntryOk(rows[i].entry) && NoCollision(r, rows[i], hash)
    requires Reports(rows[i := r], hash, v)
    ensures v ==
      if r.prevHash != rows[i].prevHash then BrokenLink(r.id)
      else if !Sealed(r, hash) then BrokenContent(r.id)
      else if i + 1 < |rows| && !SameRow(r, rows[i]) then BrokenLink(rows[i + 1].id)
      else Valid
  {
    var rows' := rows[i := r];
    OverwritePrefix(rows, i, r, hash);
    assert Fits(rows, i, hash);
    if r.prevHash != rows[i].prevHash {
      assert BreaksAt(rows', hash, BrokenLink(r.id), i);
      OneVerdict(rows', hash, v, BrokenLink(r.id));
    } else if !Sealed(r, hash) {
      assert BreaksAt(rows', hash, BrokenContent(r.id), i);
      OneVerdict(rows', hash, v, BrokenContent(r.id));
    } else if i + 1 < |rows| && !SameRow(r, rows[i]) {
      PrevNonEmpty(rows, i, hash);
      if r.rowHash == rows[i].rowHash {
        SealUnique(r, rows[i], hash);
      }
      assert Fits(rows, i + 1, hash);
      assert BreaksAt(rows', hash, BrokenLink(rows[i + 1].id), i + 1);
      OneVerdict(rows', hash, v, BrokenLink(rows[i + 1].id));
    } else {
      OverwriteHarmless(rows, i, r, hash);
      assert BreaksAt(rows', hash, Valid, |rows'|);
      OneVerdict(rows', hash, v, Valid);
    }
  }

  lemma OverwritePrefix(rows: seq<AuditRow>, i: nat, r: AuditRow, hash: Hash)
    requires Chained(rows, hash) && i < |rows|
    ensures ChainedTo(rows[i := r], i, hash) && PrevOf(rows[i := r], i) == PrevOf(rows, i)
  {
    var rows' := rows[i := r];
    forall j | 0 <= j < i ensures Fits(rows', j, hash) {
      assert Fits(rows, j, hash);
    }
  }

  lemma OverwriteHarmless(rows: seq<AuditRow>, i: nat, r: AuditRow, hash: Hash)
    requires Chained(rows, hash) && i < |rows| && r.prevHash == rows[i].prevHash && Sealed(r, hash)
    requires i + 1 < |rows| ==> r.rowHash == rows[i].rowHash
    ensures Chained(rows[i := r], hash)
  {
    var rows' := rows[i := r];
    forall j | 0 <= j < |rows| ensures Fits(rows', j, hash) {
      assert Fits(rows, j, hash);
    }
  }

  /** Changing what a row says, and nothing else, is reported at exactly that row. */
  lemma ContentChangeIsNamed(rows: seq<AuditRow>, i: nat, e: Entry, hash: Hash, v: Verdict)
    requires NonEmpty(hash) && Chained(rows, hash) && i < |rows|
    requires EntryOk(e) && EntryOk(rows[i].entry) && NoCollision(rows[i].(entry := e), rows[i], hash)
    requires Reports(rows[i := rows[i].(entry := e)], hash, v)
    ensures v == if e == rows[i].entry then Valid else BrokenContent(rows[i].id)
  {
    var r := rows[i].(entry := e);
    OverwriteVerdict(rows, i, r, hash, v);
    assert Fits(rows, i, hash);
    if e != rows[i].entry && Sealed(r, hash) {
      PrevNonEmpty(rows, i, hash);
      SealUnique(r, rows[i], hash);
    }
  }

  lemma CutChained(rows: seq<AuditRow>, i: nat, j: nat, hash: Hash)
    requires Chained(rows, hash) && i <= j <= |rows|
    ensures ChainedTo(rows[..i] + rows[j..], i, hash)
  {
    var cut := rows[..i] + rows[j..];
    forall k | 0 <= k < i ensures Fits(cut, k, hash) {
      assert Fits(rows, k, hash);
    }
  }

  lemma InnerCutBreaks(rows: seq<AuditRow>, i: nat, j: nat, hash: Hash)
    requires Chained(rows, hash) && i < j < |rows| && PrevOf(rows, i) != PrevOf(rows, j)
    ensures Reports(rows[..i] + rows[j..], hash, BrokenLink(rows[j].id))
  {
    var cut := rows[..i] + rows[j..];
    CutChained(rows, i, j, hash);
    assert Fits(rows, j, hash) && cut[i] == rows[j];
    assert PrevOf(cut, i) == PrevOf(rows, i);
    assert BreaksAt(cut, hash, BrokenLink(rows[j].id), i);
  }

  /** Deleting rows i up to j leaves a log that verifies if and only if they were
      the newest ones: the walk never looks at the head pointer, which alone
      would tell. */
  lemma DeletionVerdict(rows: seq<AuditRow>, i: nat, j: nat, hash: Hash, v: Verdict)
    requires NonEmpty(hash) && EntriesOk(rows) && CollisionFree(rows, rows, hash) && Chained(rows, hash)
    requires i < j <= |rows| && Reports(rows[..i] + rows[j..], hash, v)
    ensures v == if j == |rows| then Valid else BrokenLink(rows[j].id)
    ensures LastHash(rows[..i]) != LastHash(rows)
  {
    var cut := rows[..i] + rows[j..];
    HashesDistinct(rows, i, |rows|, hash);
    HashesDistinct(rows, i, j, hash);
    if j == |rows| {
      CutChained(rows, i, j, hash);
      assert BreaksAt(cut, hash, Valid, |cut|);
      OneVerdict(cut, hash, v, Valid);
    } else {
      InnerCutBreaks(rows, i, j, hash);
      OneVerdict(cut, hash, v, BrokenLink(rows[j].id));
    }
  }

  // ----- honest logs, as the query orders them -----

  ghost predicate UniqueIds(rows: seq<AuditRow>) {
    forall i, j :: 0 <= i < j < |rows| ==> rows[i].id != rows[j].id
  }

  /** Every row was created after the ones inserted before it. */
  ghost predicate InsertedInOrder(rows: seq<AuditRow>) {
    forall i, j :: 0 <= i < j < |rows| ==> Before(rows[i], rows[j])
  }

  lemma ElementOf(rows: seq<AuditRow>, fetched: seq<AuditRow>, k: nat) returns (j: nat)
    requires multiset(fetched) == multiset(rows) && k < |fetched|
    ensures j < |rows| && rows[j] == fetched[k]
  {
    assert fetched[k] in multiset(fetched);
    j :| 0 <= j < |rows| && rows[j] == fetched[k];
  }

  /** A chain can be put together in one order only. */
  lemma {:induction false} ChainFixesOrder(rows: seq<AuditRow>, fetched: seq<AuditRow>, k: nat, hash: Hash)
    requires NonEmpty(hash) && EntriesOk(rows) && CollisionFree(rows, rows, hash)
    requires Chained(rows, hash) && Chained(fetched, hash) && multiset(fetched) == multiset(rows)
    requires |fetched| == |rows| && k <= |rows|
    ensures fetched[..k] == rows[..k]
  {
    hide EntryOk, NoCollision, Sealed;
    if k > 0 {
      ChainFixesOrder(rows, fetched, k - 1, hash);
      var j := ElementOf(rows, fetched, k - 1);
      assert Fits(fetched, k - 1, hash) && Fits(rows, j, hash);
      assert k > 1 ==> fetched[..k - 1][k - 2] == rows[..k - 1][k - 2];
      assert PrevOf(fetched, k - 1) == PrevOf(rows, k - 1);
      if j < k - 1 {
        HashesDistinct(rows, j, k - 1, hash);
      } else if k - 1 < j {
        HashesDistinct(rows, k - 1, j, hash);
      }
    }
  }

  lemma TailContents(rows: seq<AuditRow>)
    requires rows != []
    ensures multiset(rows[1..]) == multiset(rows) - multiset{rows[0]}
  {
    assert rows == [rows[0]] + rows[1..];
  }

  /** Rows in strict order are the only arrangement of themselves in order. */
  lemma {:induction false} OneOrder(rows: seq<AuditRow>, fetched: seq<AuditRow>)
    requires InsertedInOrder(rows) && InQueryOrder(rows, fetched)
    ensures fetched == rows
  {
    assert |multiset(fetched)| == |multiset(rows)|;
    if rows != [] {
      var j := ElementOf(rows, fetched, 0);
      var m := ElementOf(fetched, rows, 0);
      assert j == 0;
      TailContents(rows);
      TailContents(fetched);
      OneOrder(rows[1..], fetched[1..]);
    }
  }

  /** An untampered log is accepted, as the query orders it, if and only if its
      rows were created in the order they were inserted. */
  lemma HonestLogAcceptedIff(rows: seq<AuditRow>, fetched: seq<AuditRow>, hash: Hash, v: Verdict)
    requires NonEmpty(hash) && EntriesOk(rows) && CollisionFree(rows, rows, hash)
    requires Chained(rows, hash) && UniqueIds(rows)
    requires InQueryOrder(rows, fetched) && Reports(fetched, hash, v)
    ensures v == Valid <==> InsertedInOrder(rows)
  {
    hide NonEmpty, EntriesOk, CollisionFree;
    assert |multiset(fetched)| == |multiset(rows)|;
    if v == Valid {
      ChainFixesOrder(rows, fetched, |rows|, hash);
      assert fetched == fetched[..|rows|] == rows[..|rows|] == rows;
    }
    if InsertedInOrder(rows) {
      OneOrder(rows, fetched);
      assert BreaksAt(fetched, hash, Valid, |fetched|);
      OneVerdict(fetched, hash, v, Valid);
    }
  }
}
