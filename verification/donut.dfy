/** The donut's integer redistribution in 64-bit arithmetic. */
module Donut {
  import opened Common

  // ---- 64-bit arithmetic ----

  const LIMIT: int := I64_LIMIT

  predicate Fits(n: int) { -LIMIT <= n < LIMIT }

  type i64 = n: int | -LIMIT <= n < LIMIT

  // Release-build arithmetic wraps around.
  function Wrap(n: int): (w: int)
    ensures Fits(w) && (w - n) % U64_LIMIT == 0
    ensures Fits(n) ==> w == n
  {
    (n + LIMIT) % U64_LIMIT - LIMIT
  }

  // Division panics on a zero divisor, and on the one quotient that does not fit.
  function Divide(a: i64, b: i64): Option<int> {
    if b == 0 || (a == -LIMIT && b == -1) then None else Some(Quotient(a, b))
  }

  // ---- redistribution ----

  datatype Shares = Shares(donut: int, builder: int, reviewers: int, ecosystem: int)

  function Cut(donut: int, part: int): int { Quotient(Wrap(donut * part), 100) }

  function Redistribute(inflow: i64, num: i64, den: i64): Option<Shares> {
    match Divide(Wrap(Max(inflow, 0) * num), den)
    case None => None
    case Some(donut) =>
      var builder, reviewers := Cut(donut, 70), Cut(donut, 20);
      Some(Shares(donut, builder, reviewers, Wrap(Wrap(donut - builder) - reviewers)))
  }

  // The same in unbounded integers.
  function IdealShares(inflow: int, num: int, den: int): Shares
    requires den > 0
  {
    var donut := Quotient(Max(inflow, 0) * num, den);
    var builder, reviewers := Quotient(donut * 70, 100), Quotient(donut * 20, 100);
    Shares(donut, builder, reviewers, donut - builder - reviewers)
  }

  lemma WrappedQuotientDiffers(x: nat, den: i64)
    requires !Fits(x) && den > 0
    ensures Quotient(Wrap(x), den) != Quotient(x, den)
  {
    var w := Wrap(x);
    var k := (x - w) / U64_LIMIT;
    assert x - w == k * U64_LIMIT && k >= 1;
    if w >= 0 {
      assert x >= w + 2 * den;
      QuotientGrows(w, x, den);
    } else {
      assert x >= den;
      QuotientPositive(x, den);
      assert Quotient(w, den) <= 0;
    }
  }

  lemma QuotientGrows(a: nat, b: nat, d: nat)
    requires d > 0 && a + d <= b
    ensures a / d < b / d
  {
    var p, q := a / d, b / d;
    assert a == p * d + a % d && b == q * d + b % d;
    if q <= p { Monotone(q, p, d); }
  }

  lemma Monotone(a: nat, b: nat, d: nat)
    requires a <= b
    ensures a * d <= b * d
  {
  }

  lemma QuotientPositive(a: nat, d: nat)
    requires d > 0 && a >= d
    ensures a / d >= 1
  {
    QuotientGrows(0, a, d);
  }

  lemma QuotientFits(a: i64, den: i64)
    requires den > 0
    ensures Fits(Quotient(a, den))
    ensures a >= 0 ==> 0 <= Quotient(a, den) <= a
  {
    var size: nat := if a >= 0 then a else -(a as int);
    QuotientAtMost(size, den);
  }

  lemma QuotientAtMost(a: nat, d: nat)
    requires d > 0
    ensures 0 <= a / d <= a
  {
    var q := a / d;
    assert a == q * d + a % d;
    assert q * d >= q by { Monotone(1, d, q); }
  }

  /** The 64-bit result is the unbounded one exactly when inflow times numerator and 70 times the donut fit. */
  lemma ExactIff(inflow: i64, num: i64, den: i64)
    requires num >= 0 && den > 0
    ensures Redistribute(inflow, num, den) == Some(IdealShares(inflow, num, den))
            <==> Fits(Max(inflow, 0) * num) && Fits(70 * IdealShares(inflow, num, den).donut)
  {
    var x := Max(inflow, 0) * num;
    assert x >= 0 by { Monotone(0, num, Max(inflow, 0)); }
    var donut := IdealShares(inflow, num, den).donut;
    if !Fits(x) {
      WrappedQuotientDiffers(x, den);
    } else {
      QuotientFits(x, den);
      if !Fits(70 * donut) {
        WrappedQuotientDiffers(70 * donut, 100);
      }
    }
  }

  /** Exact shares: a 70 / 20 / 10 division of the donut that loses nothing, every rounding going to the
      ecosystem, which gets at least its tenth and less than two micro-dollars more. */
  lemma ExactShares(inflow: int, num: nat, den: int)
    requires den > 0
    ensures var s := IdealShares(inflow, num, den);
            && s.builder + s.reviewers + s.ecosystem == s.donut
            && 0 <= s.donut * den <= Max(inflow, 0) * num < s.donut * den + den
            && s.builder * 100 <= s.donut * 70 < s.builder * 100 + 100
            && s.reviewers * 100 <= s.donut * 20 < s.reviewers * 100 + 100
            && s.donut <= 10 * s.ecosystem < s.donut + 20
  {
    var x := Max(inflow, 0) * num;
    assert x >= 0 by { Monotone(0, num, Max(inflow, 0)); }
    var q := x / den;
    assert x == q * den + x % den;
    assert q >= 0 by { QuotientAtMost(x, den); }
    assert q * den >= 0 by { Monotone(0, q, den); }
  }

  // ---- the shares always add up, overflow or not ----

  lemma CutSmall(donut: i64, part: int)
    ensures -LIMIT <= 100 * Cut(donut, part) <= LIMIT
  {
  }

  // Near the top and bottom of the range the wrapped cuts stay on the donut's side.
  lemma CutNearTop(c: nat)
    requires 1 <= c && 50 * c <= LIMIT
    ensures Cut(LIMIT - c, 20) == -(c / 5)
    ensures Cut(LIMIT - c, 70) >= 0 || Cut(LIMIT - c, 70) == -(70 * c / 100)
  {
    assert Wrap((LIMIT - c) * 20) == -20 * c;
    assert Wrap((LIMIT - c) * 70) == if 70 * c <= LIMIT then -70 * c else U64_LIMIT - 70 * c;
  }

  lemma CutNearBottom(c: nat)
    requires 50 * c <= LIMIT
    ensures Cut(c - LIMIT, 20) == c / 5
    ensures Cut(c - LIMIT, 70) <= 0 || Cut(c - LIMIT, 70) == 70 * c / 100
  {
    assert Wrap((c - LIMIT) * 20) == 20 * c;
    assert Wrap((c - LIMIT) * 70) == if 70 * c < LIMIT then 70 * c else 70 * c - U64_LIMIT;
  }

  /** Whatever the donut, taking the builder's and the reviewers' cuts away never overflows. */
  lemma CutsNeverOverflow(donut: i64)
    ensures Fits(donut - Cut(donut, 70)) && Fits(donut - Cut(donut, 20))
    ensures Fits(donut - Cut(donut, 70) - Cut(donut, 20))
  {
    CutSmall(donut, 70);
    CutSmall(donut, 20);
    if 50 * (LIMIT - donut) <= LIMIT {
      CutNearTop(LIMIT - donut);
    } else if 50 * (donut + LIMIT) <= LIMIT {
      CutNearBottom(donut + LIMIT);
    }
  }

  /** Whenever the division does not panic, the shares fit and add up to the donut, overflow or not. */
  lemma SharesAddUp(inflow: i64, num: i64, den: i64)
    ensures match Redistribute(inflow, num, den)
            case None => den <= 0
            case Some(s) =>
              && Fits(s.donut) && Fits(s.builder) && Fits(s.reviewers) && Fits(s.ecosystem)
              && Fits(s.builder + s.ecosystem)
              && s.builder + s.reviewers + s.ecosystem == s.donut
  {
    if Redistribute(inflow, num, den).Some? {
      var donut := Redistribute(inflow, num, den).value.donut;
      DivideFits(Wrap(Max(inflow, 0) * num), den);
      CutSmall(donut, 70);
      CutSmall(donut, 20);
      CutsNeverOverflow(donut);
    }
  }

  /** The division panics exactly on a zero denominator, and on a denominator of -1 under the least 64-bit number;
      `w` is the 64-bit number the product of inflow and numerator wraps to. */
  lemma PanicsIff(inflow: i64, num: i64, den: i64, w: i64)
    requires (w - (if inflow > 0 then inflow else 0) * num) % U64_LIMIT == 0
    ensures Redistribute(inflow, num, den) == None <==> den == 0 || (den == -1 && w == -LIMIT)
  {
    OneWrap((if inflow > 0 then inflow else 0) * num, w);
  }

  lemma OneWrap(n: int, w: int)
    requires Fits(w) && (w - n) % U64_LIMIT == 0
    ensures Wrap(n) == w
  {
    var k, m := (w - n) / U64_LIMIT, (Wrap(n) - n) / U64_LIMIT;
    assert w - n == k * U64_LIMIT && Wrap(n) - n == m * U64_LIMIT;
  }

  lemma DivideFits(a: i64, b: i64)
    requires Divide(a, b).Some?
    ensures Fits(Divide(a, b).value)
  {
    var x: nat := if a >= 0 then a else -(a as int);
    var y: nat := if b >= 0 then b else -(b as int);
    QuotientAtMost(x, y);
    if x == LIMIT && y > 1 { HalfAtMost(x, y); }
  }

  lemma HalfAtMost(a: nat, d: nat)
    requires d > 1 && a > 0
    ensures a / d < a
  {
    var q := a / d;
    assert a == q * d + a % d;
    assert q * d >= q * 2 by { Monotone(2, d, q); }
  }
}
