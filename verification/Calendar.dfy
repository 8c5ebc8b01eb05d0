/** Gregorian dates and clamped month arithmetic. */
module Calendar {
  import opened Prelude

  /** A candidate date; `datetime.date` only builds the valid ones. */
  datatype Date = Date(year: int, month: int, day: int) {
    predicate Valid() { 1 <= year <= 9999 && InMonth() }

    predicate InMonth() { 1 <= month <= 12 && 1 <= day <= DaysIn(MonthIndex()) }

    /** Months since year 0: the `year * 12 + (month - 1)` of the code. */
    function MonthIndex(): int { year * 12 + (month - 1) }

    /** The calendar order of valid dates. */
    predicate AtMost(other: Date) {
      MonthIndex() < other.MonthIndex() || (MonthIndex() == other.MonthIndex() && day <= other.day)
    }

    predicate Before(other: Date) { AtMost(other) && this != other }
  }

  /** A date the database or `datetime.date` can hold. */
  type Day = d: Date | d.Valid() witness Date(2000, 1, 1)

  predicate IsLeap(year: int) {
    year % 4 == 0 && (year % 100 != 0 || year % 400 == 0)
  }

  /** Days in the month with the given index. */
  function DaysIn(monthIndex: int): int {
    var year, month := monthIndex / 12, monthIndex % 12 + 1;
    if month == 2 then (if IsLeap(year) then 29 else 28)
    else if month in {4, 6, 9, 11} then 30
    else 31
  }

  function Smaller(a: int, b: int): int { if a <= b then a else b }

  /** The target month, with the day clamped to its length. */
  function Shift(d: Date, months: int): Date {
    var target := d.MonthIndex() + months;
    Date(target / 12, target % 12 + 1, Smaller(d.day, DaysIn(target)))
  }

  /** `add_months`: raises when the target year is outside datetime.date's range. */
  function AddMonths(d: Day, months: int): Result<Day> {
    if 1 <= (d.MonthIndex() + months) / 12 <= 9999 then
      ShiftMonth(d, months);
      Returned(Shift(d, months))
    else Threw(ValueError)
  }

  // --- laws --------------------------------------------------------------------------------

  lemma ShiftMonth(d: Date, months: int)
    requires d.InMonth()
    ensures Shift(d, months).MonthIndex() == d.MonthIndex() + months
    ensures Shift(d, months).InMonth()
  {
  }

  /** It returns exactly for the years 1 to 9999, and then a date of the calendar, in the month asked
      for: on the same day, or on the last one of a month too short to have it. */
  lemma AddMonthsValid(d: Day, months: int)
    ensures AddMonths(d, months).Returned? <==> 12 <= d.MonthIndex() + months < 120000
    ensures AddMonths(d, months).Returned? ==>
      var r := AddMonths(d, months).value;
      && r.Valid() && r.MonthIndex() == d.MonthIndex() + months
      && (r.day == d.day || (r.day < d.day && r.day == DaysIn(r.MonthIndex())))
    ensures AddMonths(d, 0) == Returned(d)
  {
    ShiftMonth(d, months);
  }

  function YearDays(year: int): int {
    QuarterDays(12 * year) + QuarterDays(12 * year + 3) + QuarterDays(12 * year + 6) + QuarterDays(12 * year + 9)
  }

  function QuarterDays(monthIndex: int): int {
    DaysIn(monthIndex) + DaysIn(monthIndex + 1) + DaysIn(monthIndex + 2)
  }

  /** Days in the years before the given one. */
  function DaysBefore(year: nat): int {
    if year == 0 then 0 else DaysBefore(year - 1) + YearDays(year - 1)
  }

  /** Leap days so far: the multiples of 4 below the year, less those of 100, plus those of 400. */
  function LeapDays(year: int): int { (year + 3) / 4 - (year + 99) / 100 + (year + 399) / 400 }

  /** The month lengths add up to the Gregorian calendar: a leap day every fourth year, but for
      the centuries, but for every fourth of those. */
  lemma {:induction false} GregorianDays(year: nat)
    ensures DaysBefore(year) == 365 * year + LeapDays(year)
  {
    hide YearDays, IsLeap, LeapDays;
    if year == 0 {
      LeapStart();
    } else {
      GregorianDays(year - 1);
      YearLength(year - 1);
      LeapStep(year - 1, year);
    }
  }

  lemma LeapStart()
    ensures LeapDays(0) == 0
  {
  }

  lemma LeapStep(x: int, y: int)
    requires y == x + 1
    ensures LeapDays(y) - LeapDays(x) == if IsLeap(x) then 1 else 0
  {
    var q, r := x / 400, x % 400;
    Ceiling(x, 4, 100 * q + r / 4, r % 4);
    Ceiling(x, 100, 4 * q + r / 100, r % 100);
    Ceiling(x, 400, q, r);
  }

  lemma Ceiling(x: int, n: int, q: int, r: int)
    requires n > 0 && x == n * q + r && 0 <= r < n
    ensures x % n == r
    ensures (x + n) / n == q + 1 && (x + n - 1) / n == if r == 0 then q else q + 1
  {
    Division(x, n, q, r);
    Division(x + n, n, q + 1, r);
    if r == 0 { Division(x + n - 1, n, q, n - 1); } else { Division(x + n - 1, n, q + 1, r - 1); }
  }

  lemma Division(x: int, n: int, q: int, r: int)
    requires n > 0 && x == n * q + r && 0 <= r < n
    ensures x / n == q && x % n == r
  {
    var d := x / n - q;
    assert x == n * (x / n) + x % n;
    assert n * d == r - x % n by { assert n * d == n * (x / n) - n * q; }
    assert d >= 1 ==> n * d >= n;
    assert d <= -1 ==> n * d <= -n;
  }

  lemma YearLength(year: int)
    ensures YearDays(year) == if IsLeap(year) then 366 else 365
  {
    MonthLengths(year, 0);
    MonthLengths(year, 3);
    MonthLengths(year, 6);
    MonthLengths(year, 9);
    hide DaysIn, IsLeap;
  }

  lemma MonthLengths(year: int, k: int)
    requires k in {0, 3, 6, 9}
    ensures QuarterDays(12 * year + k)
      == if k == 0 then (if IsLeap(year) then 91 else 90) else if k == 3 then 91 else 92
  {
    assert (12 * year + k) / 12 == (12 * year + k + 1) / 12 == (12 * year + k + 2) / 12 == year;
    assert (12 * year + k) % 12 == k;
    hide IsLeap;
  }

  lemma OrderIsTotal(a: Date, b: Date)
    requires a.Valid() && b.Valid()
    ensures a.AtMost(b) || b.AtMost(a)
    ensures a.AtMost(b) && b.AtMost(a) <==> a == b
  {
    if a.MonthIndex() == b.MonthIndex() {
      assert a.year == b.year;
    }
  }

  lemma OrderIsTransitive(a: Date, b: Date, c: Date)
    requires a.AtMost(b) && b.AtMost(c)
    ensures a.AtMost(c)
  {
  }

  /** Monotone in the date and strictly monotone in the number of months. */
  lemma ShiftMonotone(a: Date, b: Date, m: int, n: int)
    requires a.Valid() && b.Valid() && a.AtMost(b) && m <= n
    ensures Shift(a, m).AtMost(Shift(b, n))
    ensures m < n ==> Shift(a, m).Before(Shift(b, n))
  {
    hide DaysIn;
    ShiftMonth(a, m);
    ShiftMonth(b, n);
  }

  /** Two steps never end after the single step, and end on the same day exactly when the
      clamp of the first step does not show in the result. */
  lemma TwoSteps(d: Date, m: int, n: int)
    requires d.Valid()
    ensures Shift(Shift(d, m), n).AtMost(Shift(d, m + n))
    ensures Shift(Shift(d, m), n) == Shift(d, m + n)
            <==> Smaller(d.day, DaysIn(d.MonthIndex() + m + n)) <= DaysIn(d.MonthIndex() + m)
  {
    ShiftMonth(d, m);
    ShiftMonth(Shift(d, m), n);
    ShiftMonth(d, m + n);
    hide DaysIn;
    var target := d.MonthIndex() + m + n;
    assert Shift(d, m).MonthIndex() + n == target;
  }

  /** Out m months and back never lands after the start; it lands on the start exactly when
      the day exists in the month visited. */
  lemma OutAndBack(d: Date, m: int)
    requires d.Valid()
    ensures Shift(Shift(d, m), -m).AtMost(d)
    ensures Shift(Shift(d, m), -m) == d <==> d.day <= DaysIn(d.MonthIndex() + m)
  {
    TwoSteps(d, m, -m);
    AddMonthsValid(d, 0);
    assert Shift(d, 0) == d;
  }

  /** A window of w months ending at asOf never reaches back to a recommendation whose
      horizon of h > w months is over. */
  lemma ShortWindowNeverMatures(rec: Date, asOf: Date, w: int, h: int)
    requires rec.Valid() && asOf.Valid() && w < h
    requires Shift(asOf, -w).AtMost(rec)
    ensures !Shift(rec, h).AtMost(asOf)
  {
    ShiftMonth(rec, h);
    ShiftMonth(asOf, -w);
    hide DaysIn;
  }

  /** With equal window and horizon only recommendations of the start month qualify: the
      start day itself, and when asOf is the last day of its month also every later day of
      the start month. */
  lemma EqualWindowMatures(rec: Date, asOf: Date, w: int)
    requires rec.Valid() && asOf.Valid()
    ensures Shift(asOf, -w).AtMost(rec) && Shift(rec, w).AtMost(asOf)
       <==> rec == Shift(asOf, -w)
            || (asOf.day == DaysIn(asOf.MonthIndex()) && rec.MonthIndex() == asOf.MonthIndex() - w
                && Shift(asOf, -w).day <= rec.day)
  {
    ShiftMonth(asOf, -w);
    ShiftMonth(rec, w);
    hide DaysIn;
    var start := Shift(asOf, -w);
    if rec.MonthIndex() == start.MonthIndex() {
      assert rec == start <==> rec.day == start.day by { SameMonth(rec, start); }
      assert rec.MonthIndex() + w == asOf.MonthIndex();
    }
  }

  lemma SameMonth(a: Date, b: Date)
    requires 1 <= a.month <= 12 && 1 <= b.month <= 12 && a.MonthIndex() == b.MonthIndex()
    ensures a.year == b.year && a.month == b.month
  {
  }
}
