/** The arithmetic of a group-wide sweep: every eligible purse gets its
    proportional share rounded down to a kobo, and the shortfall is folded
    into the last share. */
module Sweep {
  import opened Sums

  /** A purse with money left, and the collected total it is weighted by. */
  datatype Eligible = Eligible(purse: nat, collected: int)

  function Weights(el: seq<Eligible>): (r: seq<int>)
    ensures |r| == |el| && forall i :: 0 <= i < |el| ==> r[i] == el[i].collected
  {
    seq(|el|, i requires 0 <= i < |el| => el[i].collected)
  }

  function Weight(el: seq<Eligible>): int {
    Sum(Weights(el))
  }

  /** One share before folding: amount * collected / total, rounded down. */
  function FloorShare(amount: int, collected: int, total: int): int
    requires total > 0
  {
    amount * collected / total
  }

  function FloorShares(amount: int, el: seq<Eligible>, total: int): (r: seq<int>)
    requires total > 0
    ensures |r| == |el| && forall i :: 0 <= i < |el| ==> r[i] == FloorShare(amount, el[i].collected, total)
  {
    seq(|el|, i requires 0 <= i < |el| => FloorShare(amount, el[i].collected, total))
  }

  /** What rounding down loses per share, in units of 1/total kobo. */
  function Losses(amount: int, el: seq<Eligible>, total: int): (r: seq<int>)
    requires total > 0
    ensures |r| == |el| && forall i :: 0 <= i < |el| ==> r[i] == amount * el[i].collected % total
  {
    seq(|el|, i requires 0 <= i < |el| => amount * el[i].collected % total)
  }

  function Remainder(amount: int, el: seq<Eligible>): int
    requires Weight(el) > 0
  {
    amount - Sum(FloorShares(amount, el, Weight(el)))
  }

  /** The final shares: the remainder goes onto the last one. */
  function Shares(amount: int, el: seq<Eligible>): (r: seq<int>)
    requires |el| > 0 && Weight(el) > 0
    ensures |r| == |el|
  {
    var floors := FloorShares(amount, el, Weight(el));
    floors[|el| - 1 := floors[|el| - 1] + Remainder(amount, el)]
  }

  ghost predicate Sweepable(amount: int, el: seq<Eligible>) {
    && amount >= 0
    && |el| > 0
    && Weight(el) > 0
    && forall i :: 0 <= i < |el| ==> el[i].collected >= 0
  }

  lemma DivMod(a: int, t: int)
    requires t > 0
    ensures a == t * (a / t) + a % t && 0 <= a % t < t
  {
  }

  lemma MulNonNegative(a: int, b: int)
    requires a >= 0 && b >= 0
    ensures a * b >= 0
  {
  }

  lemma MulMonotone(a: int, b: int, k: int)
    requires a <= b && k >= 0
    ensures a * k <= b * k
  {
  }

  lemma DivNonNegative(a: int, t: int)
    requires t > 0 && a >= 0
    ensures a / t >= 0
  {
  }

  /** total * (sum of the floors) + (sum of the losses) == amount * total. */
  lemma FloorsPlusLosses(amount: int, el: seq<Eligible>, total: int)
    requires total > 0
    ensures total * Sum(FloorShares(amount, el, total)) + Sum(Losses(amount, el, total)) == amount * Weight(el)
  {
    var floors, losses := FloorShares(amount, el, total), Losses(amount, el, total);
    var scaled := seq(|el|, i requires 0 <= i < |el| => total * floors[i]);
    var exact := seq(|el|, i requires 0 <= i < |el| => amount * el[i].collected);
    SumScales(floors, total, scaled);
    SumScales(Weights(el), amount, exact);
    forall i | 0 <= i < |el| ensures exact[i] == scaled[i] + losses[i] {
      DivMod(amount * el[i].collected, total);
    }
    SumAdds(scaled, losses, exact);
  }

  lemma LossesBounded(amount: int, el: seq<Eligible>, total: int)
    requires total > 0
    ensures 0 <= Sum(Losses(amount, el, total)) <= |el| * (total - 1)
  {
    forall i | 0 <= i < |el| ensures 0 <= Losses(amount, el, total)[i] <= total - 1 {
      DivMod(amount * el[i].collected, total);
    }
    SumWithin(Losses(amount, el, total), total - 1);
  }

  lemma CancelBelow(r: int, n: int, t: int, lost: int)
    requires t > 0 && t * r == lost && 0 <= lost <= n * (t - 1) && n > 0
    ensures 0 <= r < n
  {
    assert n * (t - 1) == n * t - n;
    if r < 0 {
      MulMonotone(r, -1, t);
    } else if r >= n {
      MulMonotone(n, r, t);
    }
  }

  lemma RemainderScaled(amount: int, el: seq<Eligible>)
    requires Weight(el) > 0
    ensures Weight(el) * Remainder(amount, el) == Sum(Losses(amount, el, Weight(el)))
  {
    FloorsPlusLosses(amount, el, Weight(el));
    Distribute(Weight(el), amount, Sum(FloorShares(amount, el, Weight(el))));
  }

  lemma Distribute(t: int, a: int, b: int)
    ensures t * (a - b) == a * t - t * b
    ensures t * (a + b) == a * t + t * b
  {
  }

  lemma FloorsNonNegative(amount: int, el: seq<Eligible>)
    requires Sweepable(amount, el)
    ensures forall i :: 0 <= i < |el| ==> FloorShares(amount, el, Weight(el))[i] >= 0
  {
    forall i | 0 <= i < |el| ensures FloorShares(amount, el, Weight(el))[i] >= 0 {
      MulNonNegative(amount, el[i].collected);
      DivNonNegative(amount * el[i].collected, Weight(el));
    }
  }

  /** No kobo is lost or made up: the shares total the sweep, none is negative,
      and the folded remainder is below one kobo per eligible purse. */
  lemma SharesExact(amount: int, el: seq<Eligible>)
    requires Sweepable(amount, el)
    ensures Sum(Shares(amount, el)) == amount
    ensures 0 <= Remainder(amount, el) < |el|
    ensures forall i :: 0 <= i < |el| ==> Shares(amount, el)[i] >= 0
  {
    var t, r := Weight(el), Remainder(amount, el);
    var floors := FloorShares(amount, el, t);
    LossesBounded(amount, el, t);
    RemainderScaled(amount, el);
    CancelBelow(r, |el|, t, Sum(Losses(amount, el, t)));
    SumUpdate(floors, |el| - 1, floors[|el| - 1] + r);
    FloorsNonNegative(amount, el);
  }

  lemma SliceGap(amount: int, c: int, t: int)
    requires t > 0
    ensures amount * c - FloorShare(amount, c, t) * t == amount * c % t
    ensures 0 <= amount * c % t < t
  {
    DivMod(amount * c, t);
  }

  /** What rounding took from every share but the last. */
  function LostBeforeLast(amount: int, el: seq<Eligible>): int
    requires |el| > 0 && Weight(el) > 0
  {
    Sum(Losses(amount, el, Weight(el))[..|el| - 1])
  }

  /** Every share but the last is its exact slice rounded down. */
  lemma ShareBounds(amount: int, el: seq<Eligible>, i: nat)
    requires Sweepable(amount, el) && i < |el| - 1
    ensures 0 <= amount * el[i].collected - Shares(amount, el)[i] * Weight(el) < Weight(el)
  {
    SliceGap(amount, el[i].collected, Weight(el));
  }

  /** The last share is above its exact slice by exactly what rounding took from
      the others, so by less than one kobo for each of them. */
  lemma LastShareBound(amount: int, el: seq<Eligible>)
    requires Sweepable(amount, el)
    ensures Shares(amount, el)[|el| - 1] * Weight(el) ==
      amount * el[|el| - 1].collected + LostBeforeLast(amount, el)
    ensures 0 <= LostBeforeLast(amount, el) <= (|el| - 1) * (Weight(el) - 1)
  {
    var n, t := |el|, Weight(el);
    var losses := Losses(amount, el, t);
    RemainderScaled(amount, el);
    SliceGap(amount, el[n - 1].collected, t);
    FoldIdentity(FloorShare(amount, el[n - 1].collected, t), Remainder(amount, el), t,
                 amount * el[n - 1].collected, losses[n - 1], LostBeforeLast(amount, el));
    LostBeforeLastBounded(amount, el);
  }

  lemma LostBeforeLastBounded(amount: int, el: seq<Eligible>)
    requires |el| > 0 && Weight(el) > 0
    ensures 0 <= LostBeforeLast(amount, el) <= (|el| - 1) * (Weight(el) - 1)
  {
    var n, t := |el|, Weight(el);
    LossesBounded(amount, el[..n - 1], t);
    assert Losses(amount, el[..n - 1], t) == Losses(amount, el, t)[..n - 1];
  }

  lemma FoldIdentity(floor: int, r: int, t: int, exact: int, loss: int, before: int)
    requires exact - floor * t == loss && t * r == before + loss
    ensures (floor + r) * t == exact + before
  {
    Distribute(t, floor, r);
  }

  /** From purses that owe nothing, a sweep within the group's collected total
      takes no purse but the last below 0 and the last no further than n - 2
      kobo below; sweeping the whole total takes exactly each purse's money. */
  lemma FreshSweepBound(amount: int, el: seq<Eligible>)
    requires Sweepable(amount, el) && amount <= Weight(el)
    ensures forall i :: 0 <= i < |el| - 1 ==> Shares(amount, el)[i] <= el[i].collected
    ensures var n := |el|;
      Shares(amount, el)[n - 1] <= el[n - 1].collected + if n >= 2 then n - 2 else 0
    ensures amount == Weight(el) ==> Shares(amount, el) == Weights(el)
  {
    var n, t := |el|, Weight(el);
    var shares := Shares(amount, el);
    LastShareBound(amount, el);
    forall i | 0 <= i < n - 1 ensures shares[i] <= el[i].collected {
      ShareBounds(amount, el, i);
      MulMonotone(amount, t, el[i].collected);
      QuotientAtMost(shares[i], el[i].collected, t);
    }
    if amount == t {
      forall i | 0 <= i < n ensures Losses(amount, el, t)[i] == 0 && FloorShares(amount, el, t)[i] == el[i].collected {
        WholeMultiple(t, el[i].collected);
      }
      SumZero(Losses(amount, el, t));
      FloorsPlusLosses(amount, el, t);
      CancelFactor(t, Sum(FloorShares(amount, el, t)), amount);
    } else {
      LastShareStep(shares[n - 1], el[n - 1].collected, n, t, amount, LostBeforeLast(amount, el));
    }
  }

  lemma QuotientAtMost(q: int, c: int, t: int)
    requires t > 0 && q * t <= t * c
    ensures q <= c
  {
    if q > c {
      MulMonotone(c + 1, q, t);
    }
  }

  lemma WholeMultiple(t: int, c: int)
    requires t > 0
    ensures t * c / t == c && t * c % t == 0
  {
    DivMod(t * c, t);
    var q, r := t * c / t, t * c % t;
    assert t * (c - q) == r;
    if c - q >= 1 {
      MulMonotone(1, c - q, t);
    } else if c - q <= -1 {
      MulMonotone(c - q, -1, t);
    }
  }

  lemma CancelFactor(t: int, a: int, b: int)
    requires t > 0 && t * a == b * t
    ensures a == b
  {
    assert t * (a - b) == 0;
  }

  lemma LastShareStep(share: int, c: int, n: int, t: int, amount: int, lost: int)
    requires n >= 1 && 0 <= amount < t && c >= 0
    requires share * t == amount * c + lost && 0 <= lost <= (n - 1) * (t - 1)
    ensures share <= c + if n >= 2 then n - 2 else 0
  {
    MulMonotone(amount, t - 1, c);
    assert share * t <= (t - 1) * (c + n - 1) by {
      assert (t - 1) * (c + n - 1) == (t - 1) * c + (t - 1) * (n - 1);
    }
    if c + n - 1 >= 1 {
      assert (t - 1) * (c + n - 1) < t * (c + n - 1);
      if share >= c + n - 1 {
        MulMonotone(c + n - 1, share, t);
      }
      if n == 1 {
        assert share <= c;
      }
    } else {
      assert c == 0 && n == 1;
      QuotientAtMost(share, 0, t);
    }
  }

  /** n purses with one kobo each. */
  function OneKoboEach(n: nat): (el: seq<Eligible>)
    ensures |el| == n && forall i :: 0 <= i < n ==> el[i] == Eligible(i, 1)
  {
    seq(n, i requires 0 <= i < n => Eligible(i, 1))
  }

  /** The bound is met for every number of purses: sweeping n - 1 of n single
      kobos puts the whole sweep on the last purse. */
  lemma FreshSweepBoundIsTight(n: nat)
    requires n >= 2
    ensures var el := OneKoboEach(n);
      && Sweepable(n - 1, el)
      && Weight(el) == n
      && Shares(n - 1, el)[n - 1] == el[n - 1].collected + (n - 2)
  {
    var el := OneKoboEach(n);
    SumScales(Weights(el), 1, Weights(el));
    AllOnes(Weights(el));
    SumZero(FloorShares(n - 1, el, n));
  }

  lemma SumOfThree(a: int, b: int, c: int)
    ensures Sum([a, b, c]) == a + b + c
  {
    SumPush([a, b], c);
    SumPush([a], b);
    assert [a] + [b] == [a, b] && [a, b] + [c] == [a, b, c];
  }

  /** Which purse comes last matters: purses that collected 1, 1 and 8 kobo are
      charged 0, 0 and 8 of a sweep of 8 in this order, and 6, 0 and 2 in reverse. */
  lemma OrderDecides()
    ensures var up := [Eligible(0, 1), Eligible(1, 1), Eligible(2, 8)]; Weight(up) == 10 && Shares(8, up) == [0, 0, 8]
    ensures var down := [Eligible(2, 8), Eligible(1, 1), Eligible(0, 1)]; Weight(down) == 10 && Shares(8, down) == [6, 0, 2]
  {
    var up, down := [Eligible(0, 1), Eligible(1, 1), Eligible(2, 8)], [Eligible(2, 8), Eligible(1, 1), Eligible(0, 1)];
    assert Weights(up) == [1, 1, 8] && Weights(down) == [8, 1, 1];
    SumOfThree(1, 1, 8);
    SumOfThree(8, 1, 1);
    assert FloorShares(8, up, 10) == [0, 0, 6] && FloorShares(8, down, 10) == [6, 0, 0];
    SumOfThree(0, 0, 6);
    SumOfThree(6, 0, 0);
  }

  lemma {:induction false} AllOnes(s: seq<int>)
    requires forall i :: 0 <= i < |s| ==> s[i] == 1
    ensures Sum(s) == |s|
  {
    if |s| > 0 {
      AllOnes(s[..|s| - 1]);
    }
  }
}
