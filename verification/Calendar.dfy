/**
 The proleptic Gregorian calendar on day numbers.  Day 0 is 0000-01-01; month
 number `k` is month `k % 12 + 1` of year `k / 12`, so month arithmetic that
 runs past December needs no special case.
 */
module Calendar {

  /** A YYYY-MM-DD text: the day it denotes, or unparsable. */
  datatype DateText = IsoDate(day: nat) | NotADate

  predicate IsLeap(y: nat) {
    y % 4 == 0 && (y % 100 != 0 || y % 400 == 0)
  }

  /** The number of days in month `k`. */
  function Length(k: nat): nat {
    var m := k % 12;
    if m == 1 then if IsLeap(k / 12) then 29 else 28
    else if m == 3 || m == 5 || m == 8 || m == 10 then 30
    else 31
  }

  /** The day number of the first of month `k`. */
  function FirstOf(k: nat): nat {
    if k == 0 then 0 else FirstOf(k - 1) + Length(k - 1)
  }

  /** Days in the years before year `y`. */
  function DaysBeforeYear(y: nat): nat {
    365 * y + (y + 3) / 4 - (y + 99) / 100 + (y + 399) / 400
  }

  function DaysBeforeMonth(leap: bool, m: nat): nat
    requires m < 12
  {
    var shift := if leap && m > 1 then 1 else 0;
    [0, 31, 59, 90, 120, 151, 181, 212, 243, 273, 304, 334][m] + shift
  }

  lemma Quarters(y: nat)
    ensures (y + 4) / 4 - (y + 3) / 4 == if y % 4 == 0 then 1 else 0
  {
  }

  lemma Centuries(y: nat)
    ensures (y + 100) / 100 - (y + 99) / 100 == if y % 100 == 0 then 1 else 0
  {
  }

  lemma Cycles(y: nat)
    ensures (y + 400) / 400 - (y + 399) / 400 == if y % 400 == 0 then 1 else 0
  {
  }

  lemma CenturiesAreQuarters(y: nat)
    ensures y % 400 == 0 ==> y % 100 == 0
    ensures y % 100 == 0 ==> y % 4 == 0
  {
    CycleYear(y / 400);
    CenturyYear(y / 100);
  }

  lemma CycleYear(q: nat)
    ensures (400 * q) % 100 == 0
  {
  }

  lemma CenturyYear(q: nat)
    ensures (100 * q) % 4 == 0
  {
  }

  lemma YearLength(y: nat)
    ensures DaysBeforeYear(y + 1) - DaysBeforeYear(y) == if IsLeap(y) then 366 else 365
  {
    Quarters(y);
    Centuries(y);
    Cycles(y);
    CenturiesAreQuarters(y);
  }

  lemma MonthStart(y: nat, m: nat)
    requires m < 11
    ensures DaysBeforeMonth(IsLeap(y), m + 1) - DaysBeforeMonth(IsLeap(y), m) == Length(12 * y + m)
  {
    assert (12 * y + m) / 12 == y && (12 * y + m) % 12 == m;
  }

  lemma December(y: nat)
    ensures DaysBeforeYear(y + 1) - DaysBeforeYear(y) - DaysBeforeMonth(IsLeap(y), 11)
      == Length(12 * y + 11)
  {
    YearLength(y);
    assert (12 * y + 11) / 12 == y && (12 * y + 11) % 12 == 11;
  }

  /** The closed form grows by each month's length. */
  lemma NextMonth(k: nat)
    ensures DaysBeforeYear((k + 1) / 12) + DaysBeforeMonth(IsLeap((k + 1) / 12), (k + 1) % 12)
      == DaysBeforeYear(k / 12) + DaysBeforeMonth(IsLeap(k / 12), k % 12) + Length(k)
  {
    var y, m := k / 12, k % 12;
    assert k == 12 * y + m;
    if m < 11 {
      MonthStart(y, m);
      assert (k + 1) / 12 == y && (k + 1) % 12 == m + 1;
    } else {
      December(y);
      assert (k + 1) / 12 == y + 1 && (k + 1) % 12 == 0;
    }
  }

  /** Adding month lengths agrees with the closed leap-year formula. */
  lemma {:induction false} ClosedForm(k: nat)
    ensures FirstOf(k) == DaysBeforeYear(k / 12) + DaysBeforeMonth(IsLeap(k / 12), k % 12)
  {
    if k > 0 {
      var j: nat := k - 1;
      ClosedForm(j);
      NextMonth(j);
      assert FirstOf(k) == FirstOf(j) + Length(j);
    }
  }

  lemma {:induction false} MonthsAscend(j: nat, k: nat)
    requires j < k
    ensures FirstOf(j) + Length(j) <= FirstOf(k)
    decreases k - j
  {
    if j + 1 < k {
      MonthsAscend(j + 1, k);
    }
  }

  lemma NoTwoLeapYears(y: nat)
    ensures IsLeap(y) ==> !IsLeap(y + 1)
  {
  }

  /** From a month to the same month of the next year. */
  lemma YearFromMonth(y: nat, m: nat)
    requires m < 12
    ensures 365 <= DaysBeforeYear(y + 1) + DaysBeforeMonth(IsLeap(y + 1), m)
      - DaysBeforeYear(y) - DaysBeforeMonth(IsLeap(y), m) <= 366
  {
    YearLength(y);
    NoTwoLeapYears(y);
  }

  /** Twelve months are 365 or 366 days. */
  lemma TwelveMonths(k: nat, j: nat)
    requires j == k + 12
    ensures 365 <= FirstOf(j) - FirstOf(k) <= 366
  {
    ClosedForm(k);
    ClosedForm(j);
    assert j / 12 == k / 12 + 1 && j % 12 == k % 12;
    YearFromMonth(k / 12, k % 12);
  }

  // ---------- From a day number back to its month ----------

  function SearchMonth(n: nat, k: nat): (r: nat)
    requires FirstOf(k) <= n
    ensures FirstOf(r) <= n < FirstOf(r) + Length(r)
    decreases n - FirstOf(k)
  {
    if n < FirstOf(k) + Length(k) then k
    else SearchMonth(n, k + 1)
  }

  /** The month that contains day `n`. */
  function MonthOf(n: nat): (k: nat)
    ensures FirstOf(k) <= n < FirstOf(k) + Length(k)
  {
    SearchMonth(n, 0)
  }

  /** The day of the month, counted from 1. */
  function DayOfMonth(n: nat): (d: nat)
    ensures 1 <= d <= Length(MonthOf(n))
    ensures n == FirstOf(MonthOf(n)) + d - 1
  {
    n - FirstOf(MonthOf(n)) + 1
  }

  /** A day belongs to exactly one month. */
  lemma MonthUnique(n: nat, k: nat)
    requires FirstOf(k) <= n < FirstOf(k) + Length(k)
    ensures MonthOf(n) == k
  {
    var m := MonthOf(n);
    if m < k {
      MonthsAscend(m, k);
    } else if k < m {
      MonthsAscend(k, m);
    }
  }

  /** time.Time.AddDate(1, 0, 0): the same month and day a year later, running
      over into March from a 29 February. */
  function AddYear(n: nat): nat {
    FirstOf(MonthOf(n) + 12) + DayOfMonth(n) - 1
  }

  lemma YearSpan(n: nat)
    ensures 365 <= AddYear(n) - n <= 366
  {
    TwelveMonths(MonthOf(n), MonthOf(n) + 12);
  }

  // ---------- Weekdays ----------

  /** time.Weekday: Sunday is 0. */
  function Weekday(n: nat): nat { (n + 6) % 7 }

  /** Days since the Monday that starts the week. */
  function SinceMonday(n: nat): nat { (Weekday(n) + 6) % 7 }

  /** Weeks counted from a Monday. */
  function WeekIndex(n: nat): nat { (n + 5) / 7 }

  lemma MondayOf(n: nat)
    ensures n - SinceMonday(n) == 7 * WeekIndex(n) - 5
  {
    assert SinceMonday(n) == (n + 5) % 7;
  }

  /** Moving both days back to their Mondays counts whole weeks between them. */
  lemma MondaysApart(a: nat, n: nat)
    requires a <= n
    ensures ((n - SinceMonday(n)) - (a - SinceMonday(a))) / 7 == WeekIndex(n) - WeekIndex(a)
    ensures (n - SinceMonday(n)) - (a - SinceMonday(a)) >= 0
  {
    MondayOf(n);
    MondayOf(a);
  }

  /** The epoch is placed right: 2026-03-08 was a Sunday. */
  lemma KnownSunday(march: nat)
    requires march / 12 == 2026 && march % 12 == 2
    ensures Weekday(FirstOf(march) + 7) == 0
  {
    ClosedForm(march);
  }
}
