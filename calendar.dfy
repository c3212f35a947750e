/** Instants of calendar months. An expiry date `MM/YYYY` denotes 00:00:00 UTC
    on the first day of that month; this module computes that instant in the
    proleptic Gregorian calendar and proves that it respects calendar order. */
module Calendar {
  import opened Common

  const NanosPerSecond: int := 1_000_000_000
  const NanosPerDay: int := 24 * 60 * 60 * NanosPerSecond

  datatype YearMonth = YearMonth(year: nat, month: nat)

  predicate ValidMonth(ym: YearMonth) {
    1 <= ym.month <= 12
  }

  predicate IsLeapYear(y: nat) {
    y % 4 == 0 && (y % 100 != 0 || y % 400 == 0)
  }

  function DaysInYear(y: nat): nat {
    if IsLeapYear(y) then 366 else 365
  }

  function DaysInMonth(y: nat, m: nat): (r: nat)
    requires 1 <= m <= 12
    ensures 28 <= r <= 31
    ensures r == 29 <==> m == 2 && IsLeapYear(y)
  {
    if m == 2 then (if IsLeapYear(y) then 29 else 28)
    else if m == 4 || m == 6 || m == 9 || m == 11 then 30
    else 31
  }

  /** Days from 0000-01-01 to the first day of year `y`. */
  function DaysBeforeYear(y: nat): nat {
    if y == 0 then 0 else DaysBeforeYear(y - 1) + DaysInYear(y - 1)
  }

  /** Days from the first of January of year `y` to the first day of month `m`. */
  function DaysBeforeMonth(y: nat, m: nat): nat
    requires 1 <= m <= 12
  {
    if m == 1 then 0 else DaysBeforeMonth(y, m - 1) + DaysInMonth(y, m - 1)
  }

  /** 00:00:00 UTC on the first day of the month. */
  function MonthStart(ym: YearMonth): (r: Instant)
    requires ValidMonth(ym)
    ensures 0 <= r && r % NanosPerDay == 0
  {
    var days := DaysBeforeMonthStart(ym);
    WholeDays(days);
    days * NanosPerDay
  }

  /** A whole number of days is a multiple of a day's length. */
  lemma WholeDays(days: nat)
    ensures 0 <= days * NanosPerDay && (days * NanosPerDay) % NanosPerDay == 0
  {
  }

  function NextMonth(ym: YearMonth): (r: YearMonth)
    requires ValidMonth(ym)
    ensures ValidMonth(r) && MonthIndex(r) == MonthIndex(ym) + 1
  {
    if ym.month == 12 then YearMonth(ym.year + 1, 1) else YearMonth(ym.year, ym.month + 1)
  }

  /** Months elapsed since January of year 0: the calendar order of months. */
  function MonthIndex(ym: YearMonth): int {
    12 * ym.year + ym.month - 1
  }

  /** The twelve months of a year fill it exactly. */
  lemma MonthsFillYear(y: nat)
    ensures DaysBeforeMonth(y, 12) + DaysInMonth(y, 12) == DaysInYear(y)
  {
    var m := 1;
    while m < 12
      invariant 1 <= m <= 12
      invariant DaysBeforeMonth(y, m) == CumulativeDays(y, m)
    {
      m := m + 1;
    }
  }

  /** Days before month `m` written out from the month lengths, a leap day
      counting from March on. */
  function CumulativeDays(y: nat, m: nat): nat
    requires 1 <= m <= 12
  {
    var common := [0, 31, 59, 90, 120, 151, 181, 212, 243, 273, 304, 334];
    common[m - 1] + (if m > 2 && IsLeapYear(y) then 1 else 0)
  }

  /** Days from 0000-01-01 to the first day of the month. */
  function DaysBeforeMonthStart(ym: YearMonth): nat
    requires ValidMonth(ym)
  {
    DaysBeforeYear(ym.year) + DaysBeforeMonth(ym.year, ym.month)
  }

  /** A month starts exactly as many days after its predecessor as the predecessor is long. */
  lemma DaysBeforeNextMonth(ym: YearMonth)
    requires ValidMonth(ym)
    ensures DaysBeforeMonthStart(NextMonth(ym)) == DaysBeforeMonthStart(ym) + DaysInMonth(ym.year, ym.month)
  {
    if ym.month == 12 {
      MonthsFillYear(ym.year);
      assert DaysBeforeYear(ym.year + 1) == DaysBeforeYear(ym.year) + DaysInYear(ym.year);
    }
  }

  /** Month starts are strictly increasing in calendar order. */
  lemma {:induction false} MonthStartIncreasing(a: YearMonth, b: YearMonth)
    requires ValidMonth(a) && ValidMonth(b)
    requires MonthIndex(a) < MonthIndex(b)
    ensures MonthStart(a) < MonthStart(b)
  {
    DaysBeforeMonthStartIncreasing(a, b);
  }

  lemma {:induction false} DaysBeforeMonthStartIncreasing(a: YearMonth, b: YearMonth)
    requires ValidMonth(a) && ValidMonth(b)
    requires MonthIndex(a) < MonthIndex(b)
    ensures DaysBeforeMonthStart(a) < DaysBeforeMonthStart(b)
    decreases MonthIndex(b) - MonthIndex(a)
  {
    var n := NextMonth(a);
    DaysBeforeNextMonth(a);
    if MonthIndex(n) < MonthIndex(b) {
      DaysBeforeMonthStartIncreasing(n, b);
    } else {
      SameIndexSameMonth(n, b);
    }
  }

  lemma SameIndexSameMonth(a: YearMonth, b: YearMonth)
    requires ValidMonth(a) && ValidMonth(b)
    requires MonthIndex(a) == MonthIndex(b)
    ensures a == b
  {
  }

  /** Hence two months have the same start only if they are the same month. */
  lemma MonthStartInjective(a: YearMonth, b: YearMonth)
    requires ValidMonth(a) && ValidMonth(b)
    requires MonthStart(a) == MonthStart(b)
    ensures a == b
  {
    if MonthIndex(a) < MonthIndex(b) {
      MonthStartIncreasing(a, b);
    } else if MonthIndex(b) < MonthIndex(a) {
      MonthStartIncreasing(b, a);
    } else {
      SameIndexSameMonth(a, b);
    }
  }
}
