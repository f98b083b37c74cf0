/** The time buckets of the trend charts: they partition the window, so the bars
    add up to the overview figure, exactly for counts and within half a kobo per
    bar for rounded money. */
module Buckets {
  import opened Rows
  import opened Sums

  /** Points in time, in microseconds. */
  type Instant = int

  const SECOND: int := 1_000_000
  const DAY: int := 86_400 * SECOND

  /** From start up to, but not including, end. */
  datatype Bucket = Bucket(start: Instant, end: Instant)

  predicate Inside(t: Instant, b: Bucket) {
    b.start <= t < b.end
  }

  function BucketDays(days: nat): (w: nat)
    ensures w > 0
  {
    if days <= 7 then 1 else 7
  }

  /** Whole buckets, rounded up. */
  function BucketCount(days: nat): nat {
    (days + BucketDays(days) - 1) / BucketDays(days)
  }

  function Boundary(days: nat, now: Instant, i: nat): Instant {
    now - days * DAY + i * (BucketDays(days) * DAY)
  }

  /** Contiguous buckets of equal width, the last one cut off one second after now. */
  ghost predicate CoversWindow(bs: seq<Bucket>, days: nat, now: Instant) {
    && |bs| == BucketCount(days)
    && (forall i :: 0 <= i < |bs| ==> bs[i].start == Boundary(days, now, i) && bs[i].start < now)
    && (forall i :: 0 <= i < |bs| - 1 ==> bs[i].end == bs[i + 1].start)
    && (bs != [] ==> bs[|bs| - 1].end == now + SECOND)
  }

  lemma BoundaryAtStart(days: nat, now: Instant)
    ensures Boundary(days, now, 0) == now - days * DAY
    ensures BucketCount(days) == 0 ==> days == 0
  {
  }

  method BuildBuckets(days: nat, now: Instant) returns (buckets: seq<Bucket>)
    ensures CoversWindow(buckets, days, now)
  {
    BoundaryAtStart(days, now);
    hide BucketCount, Boundary;
    var windowStart := now - days * DAY;
    var bucketDays := if days <= 7 then 1 else 7;
    buckets := [];
    var cursor := windowStart;
    while cursor < now
      invariant cursor == if |buckets| < BucketCount(days) then Boundary(days, now, |buckets|) else now
      invariant |buckets| <= BucketCount(days)
      invariant forall i :: 0 <= i < |buckets| ==> buckets[i].start == Boundary(days, now, i) && buckets[i].start < now
      invariant forall i :: 0 <= i < |buckets| - 1 ==> buckets[i].end == buckets[i + 1].start
      invariant buckets != [] ==> buckets[|buckets| - 1].end == if cursor < now then cursor else now + SECOND
      decreases now - cursor
    {
      BoundaryBeforeNow(days, now, |buckets|);
      BoundaryBeforeNow(days, now, |buckets| + 1);
      var next := cursor + bucketDays * DAY;
      var bucketEnd := if next <= now then next else now;
      var isLast := bucketEnd >= now;
      buckets := buckets + [Bucket(cursor, if isLast then bucketEnd + SECOND else bucketEnd)];
      cursor := bucketEnd;
    }
    BoundaryBeforeNow(days, now, |buckets|);
  }

  /** Exactly the boundaries with a smaller index than the count lie before now. */
  lemma BoundaryBeforeNow(days: nat, now: Instant, i: nat)
    ensures Boundary(days, now, i) < now <==> i < BucketCount(days)
    ensures Boundary(days, now, i + 1) == Boundary(days, now, i) + BucketDays(days) * DAY
  {
    var w := BucketDays(days);
    RoundedUp(days, w, i);
    Regroup(i, w, DAY);
    InDays(i * w, days);
  }

  lemma InDays(a: int, b: int)
    ensures a * DAY < b * DAY <==> a < b
  {
  }

  lemma RoundedUp(days: nat, w: nat, i: nat)
    requires w == 1 || w == 7
    ensures i * w < days <==> i < (days + w - 1) / w
  {
  }

  lemma Regroup(i: nat, w: nat, day: int)
    requires w == 1 || w == 7
    ensures i * (w * day) == i * w * day && (i + 1) * (w * day) == i * (w * day) + w * day
  {
  }

  lemma CoverStarts(bs: seq<Bucket>, days: nat, now: Instant, i: nat, j: nat)
    requires CoversWindow(bs, days, now) && i <= j < |bs|
    ensures bs[i].start <= bs[j].start && (i < j ==> bs[i].end <= bs[j].start)
  {
    if i < j {
      assert bs[i].end == bs[i + 1].start;
    }
  }

  /** A week or less is cut into days and anything longer into weeks; all buckets
      but the last have that width exactly, and the last at most that and a second. */
  lemma BucketWidths(bs: seq<Bucket>, days: nat, now: Instant, i: nat)
    requires CoversWindow(bs, days, now) && i < |bs|
    ensures bs[0].start == now - days * 86_400_000_000 && bs[|bs| - 1].end == now + 1_000_000
    ensures var width := if days <= 7 then 86_400_000_000 else 604_800_000_000;
      if i < |bs| - 1 then bs[i].end - bs[i].start == width
      else 1_000_000 < bs[i].end - bs[i].start <= width + 1_000_000
    ensures days == 7 ==> |bs| == 7
    ensures days == 30 ==> |bs| == 5
    ensures days == 90 ==> |bs| == 13
  {
    assert bs[0].start == Boundary(days, now, 0);
    BoundaryBeforeNow(days, now, i);
    BoundaryBeforeNow(days, now, i + 1);
  }

  /** Every instant of a non-empty window falls in exactly one bucket. */
  lemma InExactlyOne(bs: seq<Bucket>, days: nat, now: Instant, t: Instant) returns (k: nat)
    requires CoversWindow(bs, days, now) && days > 0 && now - days * DAY <= t <= now
    ensures k < |bs| && Inside(t, bs[k])
    ensures forall j :: 0 <= j < |bs| && j != k ==> !Inside(t, bs[j])
  {
    assert bs[0].start == Boundary(days, now, 0) == now - days * DAY;
    k := 0;
    while k + 1 < |bs| && bs[k + 1].start <= t
      invariant k < |bs| && bs[k].start <= t
      decreases |bs| - k
    {
      k := k + 1;
    }
    forall j | 0 <= j < |bs| && j != k ensures !Inside(t, bs[j]) {
      if j < k {
        CoverStarts(bs, days, now, j, k);
      } else {
        CoverStarts(bs, days, now, k + 1, j);
      }
    }
  }

  // ----- adding up bars -----

  datatype Item = Item(at: Instant, weight: int)

  /** What a query for rows of the window returns. */
  function InWindow<T>(rows: seq<T>, at: T -> Instant, days: nat, now: Instant): seq<T> {
    if rows == [] then []
    else
      var front := InWindow(rows[..|rows| - 1], at, days, now);
      var last := rows[|rows| - 1];
      if now - days * DAY <= at(last) <= now then front + [last] else front
  }

  function Weight(items: seq<Item>): int {
    if items == [] then 0 else Weight(items[..|items| - 1]) + items[|items| - 1].weight
  }

  function WeightIn(items: seq<Item>, b: Bucket): int {
    if items == [] then 0
    else
      var front := WeightIn(items[..|items| - 1], b);
      if Inside(items[|items| - 1].at, b) then front + items[|items| - 1].weight else front
  }

  function Bars(items: seq<Item>, bs: seq<Bucket>): (r: seq<int>)
    ensures |r| == |bs| && forall i :: 0 <= i < |bs| ==> r[i] == WeightIn(items, bs[i])
  {
    seq(|bs|, i requires 0 <= i < |bs| => WeightIn(items, bs[i]))
  }

  lemma {:induction false} WindowHolds<T>(rows: seq<T>, at: T -> Instant, days: nat, now: Instant)
    ensures forall i :: 0 <= i < |InWindow(rows, at, days, now)| ==>
      now - days * DAY <= at(InWindow(rows, at, days, now)[i]) <= now
  {
    if rows != [] {
      WindowHolds(rows[..|rows| - 1], at, days, now);
    }
  }

  /** The bars of a non-empty window add up to everything in it. */
  lemma {:induction false} BarsAddUp(items: seq<Item>, bs: seq<Bucket>, days: nat, now: Instant)
    requires CoversWindow(bs, days, now) && days > 0
    requires forall i :: 0 <= i < |items| ==> now - days * DAY <= items[i].at <= now
    ensures Sum(Bars(items, bs)) == Weight(items)
  {
    if items == [] {
      SumZero(Bars(items, bs));
    } else {
      var n := |items| - 1;
      BarsAddUp(items[..n], bs, days, now);
      var k := InExactlyOne(bs, days, now, items[n].at);
      var last := seq(|bs|, i requires 0 <= i < |bs| => if i == k then items[n].weight else 0);
      SumSingle(last, k);
      SumAdds(Bars(items[..n], bs), last, Bars(items, bs));
    }
  }

  // ----- growth -----

  function Counted(times: seq<Instant>): (r: seq<Item>)
    ensures |r| == |times| && forall i :: 0 <= i < |times| ==> r[i] == Item(times[i], 1)
  {
    seq(|times|, i requires 0 <= i < |times| => Item(times[i], 1))
  }

  method CountInside(times: seq<Instant>, b: Bucket) returns (n: nat)
    ensures n == WeightIn(Counted(times), b)
  {
    n := 0;
    assert Counted(times[..0]) == [];
    for i := 0 to |times|
      invariant n == WeightIn(Counted(times[..i]), b)
    {
      assert Counted(times[..i + 1])[..i] == Counted(times[..i]);
      if b.start <= times[i] < b.end {
        n := n + 1;
      }
    }
    assert times[..|times|] == times;
  }

  /** New groups and new members per bucket, from the instants the window query returned. */
  method GrowthTrend(groups: seq<Instant>, members: seq<Instant>, days: nat, now: Instant)
    returns (bars: seq<(nat, nat)>, buckets: seq<Bucket>)
    ensures CoversWindow(buckets, days, now) && |bars| == |buckets|
    ensures forall i :: 0 <= i < |bars| ==>
      bars[i] == (WeightIn(Counted(groups), buckets[i]), WeightIn(Counted(members), buckets[i]))
  {
    buckets := BuildBuckets(days, now);
    bars := [];
    for i := 0 to |buckets|
      invariant |bars| == i
      invariant forall j :: 0 <= j < i ==>
        bars[j] == (WeightIn(Counted(groups), buckets[j]), WeightIn(Counted(members), buckets[j]))
    {
      var newGroups := CountInside(groups, buckets[i]);
      var newMembers := CountInside(members, buckets[i]);
      bars := bars + [(newGroups, newMembers)];
    }
  }

  lemma {:induction false} WeightOfCounted(items: seq<Item>)
    requires forall i :: 0 <= i < |items| ==> items[i].weight == 1
    ensures Weight(items) == |items|
  {
    if items != [] {
      WeightOfCounted(items[..|items| - 1]);
    }
  }

  /** The growth bars add up to the overview's count of the same window at the
      same clock, except for a window of no days, which has no bars. */
  lemma GrowthAddsUp(times: seq<Instant>, bs: seq<Bucket>, days: nat, now: Instant)
    requires CoversWindow(bs, days, now)
    ensures var found := InWindow(times, (t: Instant) => t, days, now);
      Sum(Bars(Counted(found), bs)) == |found| <==> days > 0 || found == []
  {
    var found := InWindow(times, (t: Instant) => t, days, now);
    WindowHolds(times, (t: Instant) => t, days, now);
    if days > 0 {
      BarsAddUp(Counted(found), bs, days, now);
      WeightOfCounted(Counted(found));
    }
  }

  // ----- revenue -----

  /** The percentage applied to a contribution, in hundredths of a percent. */
  datatype Fee = Fee(paidAt: Instant, received: Kobo, percent: Option<nat>)

  /** Ten-thousandths of a kobo. */
  const PARTS: int := 10_000

  function FeeParts(f: Fee): int {
    f.received * (if f.percent.Some? then f.percent.value else 0)
  }

  function FeeItems(fees: seq<Fee>): (r: seq<Item>)
    ensures |r| == |fees| && forall i :: 0 <= i < |fees| ==> r[i] == Item(fees[i].paidAt, FeeParts(fees[i]))
  {
    seq(|fees|, i requires 0 <= i < |fees| => Item(fees[i].paidAt, FeeParts(fees[i])))
  }

  /** To the nearest kobo, halves away from zero. */
  function Money(parts: int): Kobo {
    if parts >= 0 then (2 * parts + PARTS) / (2 * PARTS) else -((2 * -parts + PARTS) / (2 * PARTS))
  }

  lemma MoneyIsNearest(parts: int)
    ensures -PARTS <= 2 * (Money(parts) * PARTS - parts) <= PARTS
    ensures 2 * (Money(parts) * PARTS - parts) == PARTS ==> parts > 0
    ensures 2 * (Money(parts) * PARTS - parts) == -PARTS ==> parts < 0
  {
  }

  /** A fee of q whole percent of 100 * x kobo is q * x kobo, and one without a
      percentage is nothing. */
  lemma FeeIsPercentage(at: Instant, x: nat, q: nat)
    ensures Money(FeeParts(Fee(at, 100 * x, Some(100 * q)))) == q * x
    ensures Money(FeeParts(Fee(at, x, None))) == 0
  {
    assert FeeParts(Fee(at, 100 * x, Some(100 * q))) == PARTS * (q * x) by {
      Hundreds(x, q);
    }
    WholeKobo(q * x);
  }

  lemma Hundreds(x: nat, q: nat)
    ensures 100 * x * (100 * q) == 10_000 * (q * x)
  {
  }

  lemma WholeKobo(n: int)
    requires n >= 0
    ensures Money(PARTS * n) == n
  {
  }

  method FeesInside(fees: seq<Fee>, b: Bucket) returns (parts: int)
    ensures parts == WeightIn(FeeItems(fees), b)
  {
    parts := 0;
    assert FeeItems(fees[..0]) == [];
    for i := 0 to |fees|
      invariant parts == WeightIn(FeeItems(fees[..i]), b)
    {
      assert FeeItems(fees[..i + 1])[..i] == FeeItems(fees[..i]);
      if b.start <= fees[i].paidAt < b.end {
        parts := parts + FeeParts(fees[i]);
      }
    }
    assert fees[..|fees|] == fees;
  }

  method RevenueTrend(fees: seq<Fee>, days: nat, now: Instant) returns (bars: seq<Kobo>, buckets: seq<Bucket>)
    ensures CoversWindow(buckets, days, now) && bars == RoundedBars(FeeItems(fees), buckets)
  {
    buckets := BuildBuckets(days, now);
    bars := [];
    for i := 0 to |buckets|
      invariant |bars| == i
      invariant forall j :: 0 <= j < i ==> bars[j] == Money(WeightIn(FeeItems(fees), buckets[j]))
    {
      var parts := FeesInside(fees, buckets[i]);
      bars := bars + [Money(parts)];
    }
  }

  function RoundedBars(items: seq<Item>, bs: seq<Bucket>): (r: seq<Kobo>)
    ensures |r| == |bs| && forall i :: 0 <= i < |bs| ==> r[i] == Money(WeightIn(items, bs[i]))
  {
    seq(|bs|, i requires 0 <= i < |bs| => Money(WeightIn(items, bs[i])))
  }

  /** Rounding n numbers one by one is off by at most half a kobo each. */
  lemma {:induction false} RoundingDrift(exact: seq<int>, rounded: seq<Kobo>)
    requires |exact| == |rounded| && forall i :: 0 <= i < |exact| ==> rounded[i] == Money(exact[i])
    ensures -(|exact| * PARTS) <= 2 * (Sum(rounded) * PARTS - Sum(exact)) <= |exact| * PARTS
  {
    if exact != [] {
      var n := |exact| - 1;
      RoundingDrift(exact[..n], rounded[..n]);
      MoneyIsNearest(exact[n]);
    }
  }

  /** The n revenue bars, each rounded to the kobo, add up to the rounded
      overview revenue of the same window to within (n + 1) / 2 kobo. */
  lemma RevenueNearlyAddsUp(fees: seq<Fee>, bs: seq<Bucket>, days: nat, now: Instant)
    requires CoversWindow(bs, days, now) && days > 0
    ensures var found := FeeItems(InWindow(fees, (f: Fee) => f.paidAt, days, now));
      -(|bs| + 1) <= 2 * (Sum(RoundedBars(found, bs)) - Money(Weight(found))) <= |bs| + 1
  {
    var found := FeeItems(InWindow(fees, (f: Fee) => f.paidAt, days, now));
    WindowHolds(fees, (f: Fee) => f.paidAt, days, now);
    BarsAddUp(found, bs, days, now);
    RoundingDrift(Bars(found, bs), RoundedBars(found, bs));
    MoneyIsNearest(Weight(found));
  }
}
