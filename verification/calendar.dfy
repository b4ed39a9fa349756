/** Closed-form calendar arithmetic behind the ISO-8601 timestamps, against counting the days one by one. */
module Calendar {
  import opened Common

  datatype Date = Date(year: nat, month: nat, day: nat)

  // ---- the calendar, as RFC 3339 gives it (section 5.7 and Appendix C) ----

  predicate IsLeap(year: int) {
    year % 4 == 0 && (year % 100 != 0 || year % 400 == 0)
  }

  function MonthLength(year: int, month: nat): nat
    requires 1 <= month <= 12
  {
    if month == 2 then (if IsLeap(year) then 29 else 28)
    else if month in {4, 6, 9, 11} then 30
    else 31
  }

  predicate ValidDate(d: Date) {
    1 <= d.month <= 12 && 1 <= d.day <= MonthLength(d.year, d.month)
  }

  function NextDay(d: Date): (n: Date)
    requires ValidDate(d)
    ensures ValidDate(n)
  {
    if d.day < MonthLength(d.year, d.month) then d.(day := d.day + 1)
    else if d.month < 12 then Date(d.year, d.month + 1, 1)
    else Date(d.year + 1, 1, 1)
  }

  const EPOCH := Date(1970, 1, 1)

  predicate Earlier(a: Date, b: Date) {
    a.year < b.year || (a.year == b.year && (a.month < b.month || (a.month == b.month && a.day < b.day)))
  }

  // ---- the code's closed form ----

  function DayNumber(d: Date): int {
    var y: int := if d.month <= 2 then d.year - 1 else d.year;
    var m: int := if d.month <= 2 then d.month + 9 else d.month - 3;
    365 * y + Quotient(y, 4) - Quotient(y, 100) + Quotient(y, 400) + Quotient(153 * m + 2, 5) + d.day - 719469
  }

  function Seconds(days: int, hour: nat, minute: nat, second: nat): int {
    days * 86400 + hour * 3600 + minute * 60 + second
  }

  function UnixSeconds(d: Date, hour: nat, minute: nat, second: nat): int {
    Seconds(DayNumber(d), hour, minute, second)
  }

  // ---- counting ----

  // Days from 1970-01-01 to January 1 of a year.
  function DaysToYear(year: nat): int
    decreases if year >= 1970 then year - 1970 else 1970 - year
  {
    if year == 1970 then 0
    else if year > 1970 then DaysToYear(year - 1) + YearLength(year - 1)
    else DaysToYear(year + 1) - YearLength(year)
  }

  function YearLength(year: int): nat { if IsLeap(year) then 366 else 365 }

  function DaysToMonth(year: int, month: nat): nat
    requires 1 <= month <= 12
  {
    if month == 1 then 0 else DaysToMonth(year, month - 1) + MonthLength(year, month - 1)
  }

  /** The reference: whole years, whole months, then days. */
  function CountedDays(d: Date): int
    requires ValidDate(d)
  {
    DaysToYear(d.year) + DaysToMonth(d.year, d.month) + d.day - 1
  }

  lemma {:induction false} YearStep(year: nat)
    ensures DaysToYear(year + 1) == DaysToYear(year) + YearLength(year)
  {
  }

  lemma MonthTable(year: int)
    ensures DaysToMonth(year, 1) == 0 && DaysToMonth(year, 2) == 31
    ensures forall m: nat :: 3 <= m <= 12 ==>
              DaysToMonth(year, m) == (153 * (m - 3) + 2) / 5 + 59 + if IsLeap(year) then 1 else 0
    ensures DaysToMonth(year, 12) + 31 == YearLength(year)
  {
    assert DaysToMonth(year, 1) == 0;
    assert DaysToMonth(year, 2) == 31;
    assert DaysToMonth(year, 3) == 59 + if IsLeap(year) then 1 else 0;
    assert DaysToMonth(year, 4) == DaysToMonth(year, 3) + 31;
    assert DaysToMonth(year, 5) == DaysToMonth(year, 4) + 30;
    assert DaysToMonth(year, 6) == DaysToMonth(year, 5) + 31;
    assert DaysToMonth(year, 7) == DaysToMonth(year, 6) + 30;
    assert DaysToMonth(year, 8) == DaysToMonth(year, 7) + 31;
    assert DaysToMonth(year, 9) == DaysToMonth(year, 8) + 31;
    assert DaysToMonth(year, 10) == DaysToMonth(year, 9) + 30;
    assert DaysToMonth(year, 11) == DaysToMonth(year, 10) + 31;
    assert DaysToMonth(year, 12) == DaysToMonth(year, 11) + 30;
  }

  /** The reference really is day-by-day counting: zero at the epoch, one more each next day. */
  lemma CountedNext(d: Date)
    requires ValidDate(d)
    ensures CountedDays(EPOCH) == 0
    ensures CountedDays(NextDay(d)) == CountedDays(d) + 1
  {
    if d.day == MonthLength(d.year, d.month) && d.month == 12 {
      MonthTable(d.year);
      YearStep(d.year);
    }
  }

  // Leap days in the years before `year`, by the closed form with floor division.
  function LeapDaysBefore(year: nat): int {
    if year == 0 then -1 else (year - 1) / 4 - (year - 1) / 100 + (year - 1) / 400
  }

  lemma QuotientSteps(n: nat)
    ensures (n + 1) / 4 == n / 4 + if (n + 1) % 4 == 0 then 1 else 0
    ensures (n + 1) / 100 == n / 100 + if (n + 1) % 100 == 0 then 1 else 0
    ensures (n + 1) / 400 == n / 400 + if (n + 1) % 400 == 0 then 1 else 0
  {
  }

  lemma LeapRule(n: nat)
    ensures n % 400 == 0 ==> n % 100 == 0
    ensures n % 100 == 0 ==> n % 4 == 0
  {
    WholeParts(4 * (n / 400), 25 * (n / 100));
    if n % 400 == 0 {
      assert n == 100 * (4 * (n / 400));
    }
    if n % 100 == 0 {
      assert n == 4 * (25 * (n / 100));
    }
  }

  lemma WholeParts(a: nat, b: nat)
    ensures (100 * a) % 100 == 0 && (4 * b) % 4 == 0
  {
  }

  lemma LeapStep(year: nat)
    ensures LeapDaysBefore(year + 1) == LeapDaysBefore(year) + if IsLeap(year) then 1 else 0
  {
    if year > 0 {
      QuotientSteps(year - 1);
      LeapRule(year);
    }
  }

  // January 1, counted and in closed form.
  lemma {:induction false} YearClosedForm(year: nat)
    ensures DaysToYear(year) == 365 * year + LeapDaysBefore(year) - 719527
    decreases if year >= 1970 then year - 1970 else 1970 - year
  {
    if year > 1970 {
      YearClosedForm(year - 1);
      LeapStep(year - 1);
    } else if year < 1970 {
      YearClosedForm(year + 1);
      LeapStep(year);
    }
  }

  /** For every date of every year the closed form is the counted number of days, except in January and
      February of the year 0, where truncating division makes it one day too late. */
  lemma ClosedFormCounts(d: Date)
    requires ValidDate(d)
    ensures DayNumber(d) == CountedDays(d) + if d.year == 0 && d.month <= 2 then 1 else 0
  {
    MonthTable(d.year);
    YearClosedForm(d.year);
    LeapStep(d.year);
    if d.month <= 2 && d.year == 0 {
      assert Quotient(-1, 4) == 0 && Quotient(-1, 100) == 0 && Quotient(-1, 400) == 0;
    }
  }

  predicate Regular(d: Date) { d.year >= 1 || d.month >= 3 }

  lemma RegularNext(d: Date)
    requires ValidDate(d)
    ensures Regular(NextDay(d)) == Regular(d) <==> d != Date(0, 2, 29)
  {
  }

  /** One day more for the next day, except across the end of February of the year 0. */
  lemma NextDayNumber(d: Date)
    requires ValidDate(d)
    ensures DayNumber(NextDay(d)) == DayNumber(d) + 1 <==> d != Date(0, 2, 29)
  {
    var n := NextDay(d);
    var x, y := DayNumber(d), DayNumber(n);
    assert x == CountedDays(d) + if Regular(d) then 0 else 1 by { ClosedFormCounts(d); }
    assert y == CountedDays(n) + if Regular(n) then 0 else 1 by { ClosedFormCounts(n); }
    CountedNext(d);
    RegularNext(d);
  }

  lemma SecondsStep(a: int, b: int, h: nat, m: nat, s: nat)
    ensures Seconds(b, h, m, s) == Seconds(a, h, m, s) + 86400 <==> b == a + 1
  {
  }

  /** The epoch is zero. */
  lemma EpochIsZero()
    ensures UnixSeconds(EPOCH, 0, 0, 0) == 0
  {
    assert Quotient(1969, 4) == 492 && Quotient(1969, 100) == 19 && Quotient(1969, 400) == 4;
  }

  /** Timestamps move by exactly one day from a date to the next. */
  lemma NextDaySeconds(d: Date, h: nat, m: nat, s: nat)
    requires ValidDate(d)
    ensures UnixSeconds(NextDay(d), h, m, s) == UnixSeconds(d, h, m, s) + 86400
            <==> d != Date(0, 2, 29)
  {
    var a, b := DayNumber(d), DayNumber(NextDay(d));
    assert b == a + 1 <==> d != Date(0, 2, 29) by { NextDayNumber(d); }
    SecondsStep(a, b, h, m, s);
  }

  lemma {:induction false} YearsGrow(a: nat, b: nat)
    requires a < b
    ensures DaysToYear(a) + YearLength(a) <= DaysToYear(b)
    decreases b - a
  {
    YearStep(a);
    if a + 1 < b {
      YearsGrow(a + 1, b);
    }
  }

  lemma {:induction false} MonthsGrow(year: int, a: nat, b: nat)
    requires 1 <= a < b <= 12
    ensures DaysToMonth(year, a) + MonthLength(year, a) <= DaysToMonth(year, b)
    decreases b - a
  {
    if a + 1 < b {
      MonthsGrow(year, a, b - 1);
    }
  }

  lemma CountedMonotone(a: Date, b: Date)
    requires ValidDate(a) && ValidDate(b) && Earlier(a, b)
    ensures CountedDays(a) < CountedDays(b)
  {
    MonthTable(a.year);
    if a.year < b.year {
      YearsGrow(a.year, b.year);
      if a.month < 12 {
        MonthsGrow(a.year, a.month, 12);
      }
    } else if a.month < b.month {
      MonthsGrow(a.year, a.month, b.month);
    }
  }

  /** Timestamps are strictly monotone in date and time of day, for every date the closed form is right for. */
  lemma SecondsMonotone(a: Date, b: Date, ha: nat, ma: nat, sa: nat, hb: nat, mb: nat, sb: nat)
    requires ValidDate(a) && ValidDate(b) && Regular(a) && Regular(b)
    requires ha < 24 && ma < 60 && sa < 60 && hb < 24 && mb < 60 && sb < 60
    ensures UnixSeconds(a, ha, ma, sa) < UnixSeconds(b, hb, mb, sb)
            <==> Earlier(a, b) || (a == b && ha * 3600 + ma * 60 + sa < hb * 3600 + mb * 60 + sb)
  {
    ClosedFormCounts(a);
    ClosedFormCounts(b);
    if Earlier(a, b) {
      CountedMonotone(a, b);
    } else if a != b {
      CountedMonotone(b, a);
    }
  }
}
