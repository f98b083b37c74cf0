/** The 28-digit decimal arithmetic the sweep is computed with, and the proof
    that one share computed that way is the exact floor in kobo.

    Operations follow the General Decimal Arithmetic Specification (multiply,
    divide and quantize) for non-negative numbers, up to trailing zeros of a
    coefficient, which no later operation can see. */
module FixedPrecision {

  /** The number of digits of Python's default decimal context. */
  const PRECISION: nat := 28

  function Pow10(n: nat): (p: nat)
    ensures p >= 1
  {
    if n == 0 then 1 else 10 * Pow10(n - 1)
  }

  /** coef * 10^exp */
  datatype Dec = Dec(coef: nat, exp: int)

  /** num / den rounded to the nearest integer, a tie to the even one. */
  function RoundHalfEven(num: nat, den: nat): nat
    requires den > 0
  {
    var q, r := num / den, num % den;
    if 2 * r > den || (2 * r == den && q % 2 == 1) then q + 1 else q
  }

  /** How many digits to drop so that at most `digits` remain. */
  function Excess(coef: nat, digits: nat): nat {
    if coef < Pow10(digits) then 0 else 1 + Excess(coef / 10, digits)
  }

  /** Rounding a result to the context precision. */
  function Finalize(x: Dec, digits: nat): Dec {
    var k := Excess(x.coef, digits);
    Dec(RoundHalfEven(x.coef, Pow10(k)), x.exp + k)
  }

  function Multiply(a: Dec, b: Dec, digits: nat): Dec {
    Finalize(Dec(a.coef * b.coef, a.exp + b.exp), digits)
  }

  /** The least shift that leaves num * 10^shift / den with `digits` digits. */
  function Shift(num: nat, den: nat, digits: nat): (s: nat)
    requires num > 0 && den > 0 && digits > 0
    ensures num * Pow10(s) >= Pow10(digits - 1) * den
    decreases Pow10(digits - 1) * den - num
  {
    if num >= Pow10(digits - 1) * den then 0
    else
      ShiftStep(num, Shift(10 * num, den, digits));
      1 + Shift(10 * num, den, digits)
  }

  lemma ShiftStep(num: nat, s: nat)
    ensures num * Pow10(1 + s) == 10 * num * Pow10(s)
  {
    MulReorder(num, Pow10(s));
  }

  lemma MulReorder(num: nat, p: nat)
    ensures num * (10 * p) == 10 * num * p
  {
  }

  /** The quotient to `digits` digits, of an operand that has at most that many. */
  function Divide(a: Dec, b: Dec, digits: nat): Dec
    requires b.coef > 0 && digits > 0 && a.coef <= Pow10(digits)
  {
    if a.coef == 0 then Dec(0, a.exp - b.exp)
    else
      var s := Shift(a.coef, b.coef, digits);
      Dec(RoundHalfEven(a.coef * Pow10(s), b.coef), a.exp - b.exp - s)
  }

  /** quantize(0.01, ROUND_DOWN), as a number of kobo. */
  function QuantizeDownKobo(x: Dec): int {
    if x.exp >= -2 then x.coef * Pow10(x.exp + 2) else x.coef / Pow10(-2 - x.exp)
  }

  /** Kobo held by a decimal with at most two decimal places. */
  function Kobo(x: Dec): nat
    requires x.exp >= -2
  {
    x.coef * Pow10(x.exp + 2)
  }

  lemma Powers()
    ensures Pow10(27) == 1_000_000_000_000_000 * 1_000_000_000_000
  {
    assert Pow10(12) == 1_000_000_000_000;
    assert Pow10(15) == 1_000_000_000_000_000;
    PowSplit(27, 12);
  }

  lemma {:induction false} PowSplit(s: nat, m: nat)
    requires m <= s
    ensures Pow10(s) == Pow10(s - m) * Pow10(m)
  {
    if m > 0 {
      PowSplit(s, m - 1);
    }
  }

  lemma MulBelow(a: nat, b: nat, p: nat, q: nat)
    requires a < p && b <= q && q > 0
    ensures a * b < p * q
  {
    Times(a, p - 1, b);
    Times(b, q, p - 1);
    assert (p - 1) * q == p * q - q;
  }

  lemma Times(a: int, b: int, k: int)
    requires a <= b && k >= 0
    ensures a * k <= b * k && k * a <= k * b
  {
  }

  lemma RoundExact(n: nat)
    ensures RoundHalfEven(n, 1) == n
  {
  }

  /** Rounding is to the nearest integer, and a tie goes to an even one. */
  lemma RoundsToNearestEven(num: nat, den: nat)
    requires den > 0
    ensures var slack := 2 * (RoundHalfEven(num, den) * den - num);
      0 <= slack + den && slack <= den && (slack == den || slack + den == 0 ==> RoundHalfEven(num, den) % 2 == 0)
  {
    var q, r := num / den, num % den;
    assert num == q * den + r;
    assert (q + 1) * den == q * den + den;
  }

  /** A half-even rounding is within half a unit. */
  lemma RoundNear(num: int, den: int)
    requires num >= 0 && den > 0
    ensures var slack := 2 * (RoundHalfEven(num, den) * den - num); -den <= slack && slack <= den
  {
    var q, r := num / den, num % den;
    assert num == q * den + r;
    assert (q + 1) * den == q * den + den;
  }

  /** A point within half a unit of x, where x lies in [lo, lo + p - p/t]. */
  lemma Squeeze(r: int, lo: int, t: int, p: int, x: int, l: int)
    requires t > 0 && p > t
    requires x == lo * t + l && 0 <= l <= t * p - p
    requires -t <= 2 * (r * t - x) && 2 * (r * t - x) <= t
    ensures lo <= r < lo + p
  {
    assert (r + 1) * t == r * t + t && (lo + p) * t == lo * t + t * p;
    if r < lo {
      Times(r + 1, lo, t);
    } else if r >= lo + p {
      Times(lo + p, r, t);
    }
  }

  /** Rounding n/t to a grid finer than 1/t never crosses an integer. */
  lemma RoundThenFloor(n: nat, t: nat, p: nat)
    requires t > 0 && p > t
    ensures RoundHalfEven(n * p, t) / p == n / t
  {
    var f, l := n / t, n % t;
    RoundNear(n * p, t);
    Expand(n, f, t, l, p);
    Squeeze(RoundHalfEven(n * p, t), f * p, t, p, n * p, l * p);
    FloorIs(RoundHalfEven(n * p, t), p, f);
  }

  lemma Expand(n: nat, f: nat, t: nat, l: nat, p: nat)
    requires n == f * t + l && l < t
    ensures n * p == f * p * t + l * p
    ensures 0 <= l * p <= t * p - p
  {
    assert (f * t + l) * p == f * t * p + l * p;
    Swap(f, t, p);
    Times(l, t - 1, p);
    assert (t - 1) * p == t * p - p;
  }

  lemma FloorIs(r: nat, p: nat, f: nat)
    requires p > 0 && f * p <= r < f * p + p
    ensures r / p == f
  {
    var q := r / p;
    assert r == q * p + r % p;
    assert (q + 1) * p == q * p + p && (f + 1) * p == f * p + p;
    if q < f {
      Times(q + 1, f, p);
    } else if q > f {
      Times(f + 1, q, p);
    }
  }

  lemma Cancel(a: int, b: int, k: int)
    requires k > 0 && a * k >= b * k
    ensures a >= b
  {
    assert (a + 1) * k == a * k + k;
    if a < b {
      Times(a + 1, b, k);
    }
  }

  /** The shift leaves a grid more than `fine` times finer than the sweep's own. */
  lemma ShiftIsFine(coef: int, c: int, t: int, m: int, k: int, fine: int, cap: int)
    requires 0 < c <= t && coef > 0 && k > 0 && fine > 0 && m > 0
    requires coef * m < cap
    requires coef * c * k >= fine * cap * t
    ensures k > fine * m
  {
    Swap(coef, c, k);
    Times(c, t, coef * k);
    Times(0, coef, k);
    Cancel(coef * k, fine * cap, t);
    Times(coef * m + 1, cap, fine);
    assert fine * (coef * m + 1) == fine * (coef * m) + fine;
    Swap(coef, m, fine);
    assert coef * (fine * m) == fine * (coef * m);
    if k <= fine * m {
      Times(k, fine * m, coef);
    }
  }

  lemma {:induction false} PowMonotone(a: nat, b: nat)
    requires a <= b
    ensures Pow10(a) <= Pow10(b)
  {
    if a < b {
      PowMonotone(a, b - 1);
    }
  }

  lemma FinalizeExact(x: Dec, digits: nat)
    requires x.coef < Pow10(digits)
    ensures Finalize(x, digits) == x
  {
    RoundExact(x.coef);
  }

  lemma MultiplyExact(a: Dec, b: Dec, digits: nat)
    requires a.coef * b.coef < Pow10(digits)
    ensures Multiply(a, b, digits) == Dec(a.coef * b.coef, a.exp + b.exp)
  {
    FinalizeExact(Dec(a.coef * b.coef, a.exp + b.exp), digits);
  }

  lemma CoefSmall(a: Dec)
    requires a.exp >= -2
    ensures a.coef <= Kobo(a)
  {
    Times(1, Pow10(a.exp + 2), a.coef);
  }

  /** At any precision whose digits cover a sweep below `cap` kobo and a total
      up to `fine` kobo, the decimal expression for a share is the exact floor. */
  lemma ShareIsFloorAt(sweep: Dec, collected: nat, total: nat, digits: nat, fine: nat, cap: nat)
    requires digits > 0 && Pow10(digits - 1) == fine * cap
    requires sweep.exp >= -2 && Kobo(sweep) < cap
    requires 0 < collected <= total < fine
    ensures var product := Multiply(sweep, Dec(collected, -2), digits);
      && product.coef <= Pow10(digits)
      && QuantizeDownKobo(Divide(product, Dec(total, -2), digits)) == Kobo(sweep) * collected / total
  {
    CoefSmall(sweep);
    MulBelow(sweep.coef, collected, cap, fine);
    MultiplyExact(sweep, Dec(collected, -2), digits);
    if sweep.coef != 0 {
      Times(1, collected, sweep.coef);
      QuotientFloor(sweep, collected, total, digits, fine, cap);
    }
  }

  lemma QuotientFloor(sweep: Dec, collected: nat, total: nat, digits: nat, fine: nat, cap: nat)
    requires digits > 0 && Pow10(digits - 1) == fine * cap
    requires sweep.exp >= -2 && Kobo(sweep) < cap && sweep.coef > 0
    requires 0 < collected <= total < fine
    requires 0 < sweep.coef * collected <= Pow10(digits)
    ensures QuantizeDownKobo(Divide(Dec(sweep.coef * collected, sweep.exp - 2), Dec(total, -2), digits))
      == Kobo(sweep) * collected / total
  {
    var e, m := sweep.exp + 2, Pow10(sweep.exp + 2);
    var s := Shift(sweep.coef * collected, total, digits);
    ShiftIsFine(sweep.coef, collected, total, m, Pow10(s), fine, cap);
    Times(1, fine, m);
    if s <= e {
      PowMonotone(s, e);
    }
    PowSplit(s, e);
    var p := Pow10(s - e);
    CancelStrict(p, fine, m);
    Regroup(sweep.coef, collected, p, m);
    RoundThenFloor(sweep.coef * m * collected, total, p);
  }

  lemma CancelStrict(a: int, b: int, k: int)
    requires k > 0 && a * k > b * k
    ensures a > b
  {
    if a <= b {
      Times(a, b, k);
    }
  }

  /** For every sweep below 10^12 kobo and every group total below 10^14 kobo,
      the decimal expression for a share equals the exact integer floor. */
  lemma ShareIsExactFloor(sweep: Dec, collected: nat, total: nat, digits: nat)
    requires digits == PRECISION
    requires sweep.exp >= -2 && Kobo(sweep) < 1_000_000_000_000
    requires 0 < collected <= total < 100_000_000_000_000
    ensures var product := Multiply(sweep, Dec(collected, -2), digits);
      && product.coef <= Pow10(digits)
      && QuantizeDownKobo(Divide(product, Dec(total, -2), digits)) == Kobo(sweep) * collected / total
  {
    Powers();
    ShareIsFloorAt(sweep, collected, total, digits, 1_000_000_000_000_000, 1_000_000_000_000);
  }

  lemma Regroup(x: nat, c: nat, p: nat, m: nat)
    ensures x * c * (p * m) == x * m * c * p
  {
    Swap(x * c, p, m);
    Swap(x, c, m);
  }

  lemma Swap(a: nat, b: nat, c: nat)
    ensures a * (b * c) == a * c * b
    ensures a * b * c == a * c * b
  {
  }
}
