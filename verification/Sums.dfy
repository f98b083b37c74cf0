/** Finite sums over table columns, and the exchange of summation order that
    every balance agreement in the ledger rests on. */
module Sums {

  function Sum(s: seq<int>): int {
    if |s| == 0 then 0 else Sum(s[..|s| - 1]) + s[|s| - 1]
  }

  lemma SumPush(s: seq<int>, x: int)
    ensures Sum(s + [x]) == Sum(s) + x
  {
  }

  lemma {:induction false} SumConcat(s: seq<int>, t: seq<int>)
    ensures Sum(s + t) == Sum(s) + Sum(t)
  {
    if t == [] {
      assert s + t == s;
    } else {
      var t' := t[..|t| - 1];
      assert s + t == (s + t') + [t[|t| - 1]];
      SumPush(s + t', t[|t| - 1]);
      SumConcat(s, t');
    }
  }

  lemma {:induction false} SumUpdate(s: seq<int>, i: nat, x: int)
    requires i < |s|
    ensures Sum(s[i := x]) == Sum(s) - s[i] + x
  {
    var u := s[i := x];
    if i == |s| - 1 {
      assert u[..|s| - 1] == s[..|s| - 1];
    } else {
      assert u[..|s| - 1] == s[..|s| - 1][i := x];
      SumUpdate(s[..|s| - 1], i, x);
    }
  }

  lemma {:induction false} SumAdds(a: seq<int>, b: seq<int>, c: seq<int>)
    requires |a| == |b| == |c|
    requires forall i :: 0 <= i < |a| ==> c[i] == a[i] + b[i]
    ensures Sum(c) == Sum(a) + Sum(b)
  {
    if |a| > 0 {
      SumAdds(a[..|a| - 1], b[..|a| - 1], c[..|a| - 1]);
    }
  }

  lemma {:induction false} SumScales(a: seq<int>, k: int, c: seq<int>)
    requires |a| == |c|
    requires forall i :: 0 <= i < |a| ==> c[i] == k * a[i]
    ensures Sum(c) == k * Sum(a)
  {
    if |a| > 0 {
      SumScales(a[..|a| - 1], k, c[..|a| - 1]);
    }
  }

  /** Pointwise order carries over to sums. */
  lemma {:induction false} SumMonotone(a: seq<int>, b: seq<int>)
    requires |a| == |b|
    requires forall i :: 0 <= i < |a| ==> a[i] <= b[i]
    ensures Sum(a) <= Sum(b)
  {
    if |a| > 0 {
      SumMonotone(a[..|a| - 1], b[..|a| - 1]);
    }
  }

  /** A longer column that is at least as large where both are defined, and
      non-negative beyond, has at least the same sum. */
  lemma {:induction false} SumExtends(a: seq<int>, b: seq<int>)
    requires |a| <= |b|
    requires forall i :: 0 <= i < |a| ==> a[i] <= b[i]
    requires forall i :: |a| <= i < |b| ==> b[i] >= 0
    ensures Sum(a) <= Sum(b)
  {
    if |a| == |b| {
      SumMonotone(a, b);
    } else {
      SumExtends(a, b[..|b| - 1]);
    }
  }

  /** Entries between 0 and `cap` keep the sum between 0 and `cap` per entry. */
  lemma {:induction false} SumWithin(a: seq<int>, cap: int)
    requires forall i :: 0 <= i < |a| ==> 0 <= a[i] <= cap
    ensures 0 <= Sum(a) <= |a| * cap
  {
    if |a| > 0 {
      SumWithin(a[..|a| - 1], cap);
    }
  }

  lemma {:induction false} SumZero(a: seq<int>)
    requires forall i :: 0 <= i < |a| ==> a[i] == 0
    ensures Sum(a) == 0
  {
    if |a| > 0 {
      SumZero(a[..|a| - 1]);
    }
  }

  /** A column whose only entry that may differ from 0 is at `k`. */
  lemma {:induction false} SumSingle(a: seq<int>, k: nat)
    requires k < |a|
    requires forall i :: 0 <= i < |a| && i != k ==> a[i] == 0
    ensures Sum(a) == a[k]
  {
    if k == |a| - 1 {
      SumZero(a[..k]);
    } else {
      SumSingle(a[..|a| - 1], k);
    }
  }

  /** A row of some table seen as an amount booked under a key. */
  datatype Posting = Posting(key: nat, amount: int)

  function Column(rows: seq<Posting>, k: nat): (r: seq<int>)
    ensures |r| == |rows|
    ensures forall i :: 0 <= i < |rows| ==> r[i] == if rows[i].key == k then rows[i].amount else 0
  {
    seq(|rows|, i requires 0 <= i < |rows| => if rows[i].key == k then rows[i].amount else 0)
  }

  /** What is booked under key `k`. */
  function Total(rows: seq<Posting>, k: nat): int {
    Sum(Column(rows, k))
  }

  /** The amounts whose key is selected. */
  function Masked(rows: seq<Posting>, member: seq<bool>): (r: seq<int>)
    ensures |r| == |rows|
    ensures forall i :: 0 <= i < |rows| ==>
      r[i] == if rows[i].key < |member| && member[rows[i].key] then rows[i].amount else 0
  {
    seq(|rows|, i requires 0 <= i < |rows| =>
      if rows[i].key < |member| && member[rows[i].key] then rows[i].amount else 0)
  }

  /** The total of each selected key, and 0 for the others. */
  function KeyTotals(rows: seq<Posting>, member: seq<bool>): (r: seq<int>)
    ensures |r| == |member|
    ensures forall k :: 0 <= k < |member| ==> r[k] == if member[k] then Total(rows, k) else 0
  {
    seq(|member|, k requires 0 <= k < |member| => if member[k] then Total(rows, k) else 0)
  }

  lemma TotalPush(rows: seq<Posting>, p: Posting, k: nat)
    ensures Total(rows + [p], k) == Total(rows, k) + if p.key == k then p.amount else 0
  {
    assert Column(rows + [p], k) == Column(rows, k) + [if p.key == k then p.amount else 0];
    SumPush(Column(rows, k), if p.key == k then p.amount else 0);
  }

  lemma TotalNonNegative(rows: seq<Posting>, k: nat)
    requires forall i :: 0 <= i < |rows| ==> rows[i].amount >= 0
    ensures Total(rows, k) >= 0
  {
    SumMonotone(seq(|rows|, i => 0), Column(rows, k));
    SumZero(seq(|rows|, i => 0));
  }

  /** Adding one row moves the per-key totals by that row. */
  lemma KeyTotalsPush(rows: seq<Posting>, p: Posting, member: seq<bool>)
    ensures Sum(KeyTotals(rows + [p], member)) ==
      Sum(KeyTotals(rows, member)) + if p.key < |member| && member[p.key] then p.amount else 0
  {
    var before, after := KeyTotals(rows, member), KeyTotals(rows + [p], member);
    forall k | 0 <= k < |member| ensures after[k] == before[k] + if member[k] && p.key == k then p.amount else 0 {
      TotalPush(rows, p, k);
    }
    if p.key < |member| {
      assert after == before[p.key := after[p.key]];
      SumUpdate(before, p.key, after[p.key]);
    } else {
      assert after == before;
    }
  }

  lemma MaskedPush(rows: seq<Posting>, p: Posting, member: seq<bool>)
    ensures Sum(Masked(rows + [p], member)) ==
      Sum(Masked(rows, member)) + if p.key < |member| && member[p.key] then p.amount else 0
  {
    var x := if p.key < |member| && member[p.key] then p.amount else 0;
    assert Masked(rows + [p], member) == Masked(rows, member) + [x];
    SumPush(Masked(rows, member), x);
  }

  /** Summing per key and then over the selected keys is summing the selected rows once. */
  lemma {:induction false} Exchange(rows: seq<Posting>, member: seq<bool>)
    ensures Sum(KeyTotals(rows, member)) == Sum(Masked(rows, member))
  {
    if rows == [] {
      SumZero(KeyTotals(rows, member));
    } else {
      var front, p := rows[..|rows| - 1], rows[|rows| - 1];
      Exchange(front, member);
      KeyTotalsPush(front, p, member);
      MaskedPush(front, p, member);
      assert rows == front + [p];
    }
  }

  /** Under distinct keys, the total of a key is the amount of the one row that carries it. */
  lemma TotalOfDistinct(rows: seq<Posting>, i: nat)
    requires i < |rows|
    requires forall j :: 0 <= j < |rows| && j != i ==> rows[j].key != rows[i].key
    ensures Total(rows, rows[i].key) == rows[i].amount
  {
    SumSingle(Column(rows, rows[i].key), i);
  }
}
