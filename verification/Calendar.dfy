/** The proleptic Gregorian calendar in UTC, from 1 January of year 1 (Go's zero time). */
module Calendar {
  import opened Durations

  function Seconds(n: int): int {
    n * SECOND
  }

  function Days(n: int): int {
    n * 86_400_000_000_000
  }

  /** A duration in seconds, truncated. */
  function InSeconds(d: nat): nat {
    d / SECOND
  }

  function InWholeDays(d: nat): nat {
    d / 86_400_000_000_000
  }

  /** Months are numbered from 0, January of year 1. */
  function Year(m: nat): nat {
    m / 12 + 1
  }

  predicate IsLeap(year: nat) {
    year % 4 == 0 && (year % 100 != 0 || year % 400 == 0)
  }

  /** Length of a month of the year, numbered from 0, January. */
  function MonthLength(month: nat, leap: bool): (d: nat)
    requires month < 12
    ensures 28 <= d <= 31
  {
    if month == 1 then (if leap then 29 else 28)
    else if month == 3 || month == 5 || month == 8 || month == 10 then 30
    else 31
  }

  function DaysIn(m: nat): (d: nat)
    ensures 28 <= d <= 31
  {
    MonthLength(m % 12, IsLeap(Year(m)))
  }

  /** Days before month m. */
  function DaysBefore(m: nat): (d: nat)
    ensures d >= 28 * m
  {
    if m == 0 then 0 else DaysBefore(m - 1) + DaysIn(m - 1)
  }

  /** The first instant of month m. */
  function StartOf(m: nat): nat {
    Days(DaysBefore(m))
  }

  /** The month t falls in, searching upwards from month m. */
  function MonthFrom(m: nat, t: nat): nat
    requires StartOf(m) <= t
    decreases InWholeDays(t) - DaysBefore(m)
  {
    if t < StartOf(m + 1) then m else MonthFrom(m + 1, t)
  }

  /** The calendar month of an instant, `date_trunc('month', t)`. */
  function MonthOf(t: nat): nat {
    MonthFrom(0, t)
  }

  lemma {:induction false} MonthFromBounds(m: nat, t: nat)
    requires StartOf(m) <= t
    ensures var n := MonthFrom(m, t); m <= n && StartOf(n) <= t < StartOf(n + 1)
    decreases InWholeDays(t) - DaysBefore(m)
  {
    if t >= StartOf(m + 1) {
      MonthFromBounds(m + 1, t);
    }
  }

  lemma {:induction false} DaysMonotone(m: nat, n: nat)
    requires m <= n
    ensures DaysBefore(m) + 28 * (n - m) <= DaysBefore(n)
  {
    if m < n {
      DaysMonotone(m, n - 1);
    }
  }

  lemma InDays(a: nat, b: nat)
    ensures a < b <==> Days(a) < Days(b)
    ensures Days(b - a) == Days(b) - Days(a)
  {
  }

  lemma {:induction false} StartStrict(m: nat, n: nat)
    ensures StartOf(m) < StartOf(n) <==> m < n
    ensures StartOf(m) <= StartOf(n) <==> m <= n
  {
    if m <= n { DaysMonotone(m, n); } else { DaysMonotone(n, m); }
    InDays(DaysBefore(m), DaysBefore(n));
    InDays(DaysBefore(n), DaysBefore(m));
  }

  lemma {:induction false} StartGap(m: nat, n: nat)
    requires m < n
    ensures StartOf(m) + Days(28) <= StartOf(n)
  {
    DaysMonotone(m, n);
    InDays(DaysBefore(m) + 28, DaysBefore(n));
    InDays(DaysBefore(n), DaysBefore(m) + 28);
  }

  /** An instant is at or after a month's start exactly when its month is. */
  lemma {:induction false} AtOrAfter(t: nat, m: nat)
    ensures StartOf(m) <= t <==> m <= MonthOf(t)
  {
    MonthFromBounds(0, t);
    StartStrict(m, MonthOf(t));
    StartStrict(MonthOf(t) + 1, m);
  }

  /** The months partition time. */
  lemma {:induction false} MonthOfUnique(t: nat, m: nat)
    ensures MonthOf(t) == m <==> StartOf(m) <= t < StartOf(m + 1)
  {
    AtOrAfter(t, m);
    AtOrAfter(t, m + 1);
  }

  lemma {:induction false} MonthMonotone(t: nat, u: nat)
    requires t <= u
    ensures MonthOf(t) <= MonthOf(u)
  {
    AtOrAfter(t, MonthOf(t));
    AtOrAfter(u, MonthOf(t));
  }

  /** Two consecutive months have at least 59 days, three at most 92. */
  lemma {:induction false} MonthRuns(m: nat)
    ensures StartOf(m) + Days(59) <= StartOf(m + 2)
    ensures StartOf(m + 3) <= StartOf(m) + Days(92)
  {
    RunLengths(m);
    ScaleRuns(DaysBefore(m), DaysBefore(m + 2), DaysBefore(m + 3));
  }

  lemma {:induction false} MonthAtMost31Days(m: nat)
    ensures StartOf(m + 1) <= StartOf(m) + Days(31)
  {
    InDays(DaysBefore(m), DaysBefore(m + 1));
  }

  lemma ScaleRuns(a: nat, b: nat, c: nat)
    requires a + 59 <= b && c <= a + 92
    ensures Days(a) + Days(59) <= Days(b) && Days(c) <= Days(a) + Days(92)
  {
  }

  lemma {:induction false} RunLengths(m: nat)
    ensures DaysBefore(m) + 59 <= DaysBefore(m + 2)
    ensures DaysBefore(m + 3) <= DaysBefore(m) + 92
  {
    Quarter(m);
    TwoMonths(m);
    ThreeMonths(m);
  }

  lemma {:induction false} Quarter(m: nat)
    ensures DaysBefore(m + 2) == DaysBefore(m) + DaysIn(m) + DaysIn(m + 1)
    ensures DaysBefore(m + 3) == DaysBefore(m) + DaysIn(m) + DaysIn(m + 1) + DaysIn(m + 2)
  {
    assert DaysBefore(m + 1) == DaysBefore(m) + DaysIn(m);
    assert DaysBefore(m + 2) == DaysBefore(m + 1) + DaysIn(m + 1);
    assert DaysBefore(m + 3) == DaysBefore(m + 2) + DaysIn(m + 2);
  }

  lemma TwoMonths(m: nat)
    ensures DaysIn(m) + DaysIn(m + 1) >= 59
  {
  }

  lemma ThreeMonths(m: nat)
    ensures DaysIn(m) + DaysIn(m + 1) + DaysIn(m + 2) <= 92
  {
  }

  /** Leap years among the first y years. */
  function LeapYears(y: nat): int {
    y / 4 - y / 100 + y / 400
  }

  /** The usual closed form: years before year y + 1 have 365 days each plus the leap days. */
  lemma {:induction false} DaysBeforeYear(y: nat)
    ensures DaysBefore(12 * y) == 365 * y + LeapYears(y)
  {
    if y > 0 {
      DaysBeforeYear(y - 1);
      DaysInYear(y - 1);
      LeapCount(y);
    }
  }

  lemma DaysInAt(y: nat, j: nat)
    requires j < 12
    ensures DaysIn(12 * y + j) == MonthLength(j, IsLeap(y + 1))
  {
  }

  /** Days in the first j months of a year. */
  function Elapsed(j: nat, leap: bool): nat
    requires j <= 12
  {
    if j == 0 then 0 else Elapsed(j - 1, leap) + MonthLength(j - 1, leap)
  }

  lemma {:induction false} DaysWithin(y: nat, j: nat)
    requires j <= 12
    ensures DaysBefore(12 * y + j) == DaysBefore(12 * y) + Elapsed(j, IsLeap(y + 1))
  {
    if j > 0 {
      DaysWithin(y, j - 1);
      DaysInAt(y, j - 1);
    }
  }

  lemma YearLengths()
    ensures Elapsed(12, true) == 366 && Elapsed(12, false) == 365
  {
  }

  lemma {:induction false} DaysInYear(y: nat)
    ensures DaysBefore(12 * y + 12) == DaysBefore(12 * y) + (if IsLeap(y + 1) then 366 else 365)
  {
    DaysWithin(y, 12);
    YearLengths();
  }

  /** From March on, the lengths of the months follow (153 * j + 2) / 5. */
  lemma FromMarch(j: nat, leap: bool)
    requires 1 <= j < 12
    ensures MonthLength((j + 1) % 12, leap) == (153 * j + 2) / 5 - (153 * (j - 1) + 2) / 5
  {
  }

  /** Every month's start in closed form, leap days and all: j months after March of year y + 1. */
  lemma {:induction false} MonthStarts(y: nat, j: nat)
    requires j < 12
    ensures DaysBefore(12 * y + 2 + j) == 365 * y + LeapYears(y + 1) + 59 + (153 * j + 2) / 5
  {
    if j == 0 {
      MarchStarts(y);
    } else {
      MonthStarts(y, j - 1);
      FromMarch(j, IsLeap(Year(12 * y + 1 + j)));
      NextMonth(y, j);
    }
  }

  lemma {:induction false} NextMonth(y: nat, j: nat)
    requires 1 <= j < 12
    ensures DaysBefore(12 * y + 2 + j)
         == DaysBefore(12 * y + 1 + j) + MonthLength((j + 1) % 12, IsLeap(Year(12 * y + 1 + j)))
  {
    assert (12 * y + 1 + j) % 12 == (j + 1) % 12;
  }

  lemma {:induction false} MarchStarts(y: nat)
    ensures DaysBefore(12 * y + 2) == 365 * y + LeapYears(y + 1) + 59
  {
    DaysBeforeYear(y);
    DaysWithin(y, 2);
    LeapCount(y + 1);
    assert Elapsed(1, IsLeap(y + 1)) == 31;
  }

  lemma {:induction false} LeapCount(y: nat)
    requires y > 0
    ensures LeapYears(y) == LeapYears(y - 1) + if IsLeap(y) then 1 else 0
  {
    assert y / 4 == (y - 1) / 4 + if y % 4 == 0 then 1 else 0;
    assert y / 100 == (y - 1) / 100 + if y % 100 == 0 then 1 else 0;
    assert y / 400 == (y - 1) / 400 + if y % 400 == 0 then 1 else 0;
    assert y % 100 == 0 ==> y % 4 == 0;
    assert y % 400 == 0 ==> y % 100 == 0;
  }
}
