/** Proleptic Gregorian dates, day ordinals and weekdays, and the monthly expiry rule. */
module Calendar {

  datatype Date = Date(year: int, month: int, day: int)

  const THURSDAY := 3

  predicate IsLeap(year: int) {
    year % 4 == 0 && (year % 100 != 0 || year % 400 == 0)
  }

  function DaysInMonth(year: int, month: int): (n: int)
    ensures 28 <= n <= 31
  {
    if month == 2 then (if IsLeap(year) then 29 else 28)
    else if month == 4 || month == 6 || month == 9 || month == 11 then 30
    else 31
  }

  predicate Valid(d: Date) {
    1 <= d.month <= 12 && 1 <= d.day <= DaysInMonth(d.year, d.month)
  }

  function DaysBeforeYear(year: int): int {
    var y := year - 1;
    y * 365 + y / 4 - y / 100 + y / 400
  }

  function DaysBeforeMonth(year: int, month: int): int {
    if month <= 1 then 0 else DaysBeforeMonth(year, month - 1) + DaysInMonth(year, month - 1)
  }

  /** date.toordinal() */
  function Ordinal(d: Date): int {
    DaysBeforeYear(d.year) + DaysBeforeMonth(d.year, d.month) + d.day
  }

  /** date.weekday(): Monday is 0, Thursday is 3. */
  function Weekday(d: Date): (w: int)
    ensures 0 <= w < 7
  {
    (Ordinal(d) + 6) % 7
  }

  /** d - timedelta(days=1) */
  function PreviousDay(d: Date): Date {
    if d.day > 1 then d.(day := d.day - 1)
    else if d.month > 1 then Date(d.year, d.month - 1, DaysInMonth(d.year, d.month - 1))
    else Date(d.year - 1, 12, 31)
  }

  function MinusDays(d: Date, n: nat): Date
    decreases n
  {
    if n == 0 then d else MinusDays(PreviousDay(d), n - 1)
  }

  /** Quotient and remainder are determined by q * n + r. */
  lemma DivModIs(x: int, n: int, q: int, r: int)
    requires 0 < n && x == q * n + r && 0 <= r < n
    ensures x / n == q && x % n == r
  {
    var d := x / n - q;
    assert d * n == r - x % n;
    assert d > 0 ==> d * n >= n;
    assert d < 0 ==> d * n <= -n;
  }

  lemma Every(y: int, n: int)
    requires 1 < n
    ensures (y + 1) / n - y / n == if (y + 1) % n == 0 then 1 else 0
  {
    var q, r := y / n, y % n;
    if r == n - 1 {
      assert (q + 1) * n == q * n + n;
      DivModIs(y + 1, n, q + 1, 0);
    } else {
      DivModIs(y + 1, n, q, r + 1);
    }
  }

  lemma Multiples(y: int)
    ensures y % 100 == 0 ==> y % 4 == 0
    ensures y % 400 == 0 ==> y % 100 == 0
  {
    if y % 100 == 0 {
      DivModIs(y, 4, 25 * (y / 100), 0);
    }
    if y % 400 == 0 {
      DivModIs(y, 100, 4 * (y / 400), 0);
    }
  }

  lemma YearLength(year: int)
    ensures DaysBeforeYear(year + 1) - DaysBeforeYear(year) == if IsLeap(year) then 366 else 365
  {
    Every(year - 1, 4);
    Every(year - 1, 100);
    Every(year - 1, 400);
    Multiples(year);
  }

  lemma DecemberEnds(year: int)
    ensures DaysBeforeMonth(year, 12) + 31 == if IsLeap(year) then 366 else 365
  {
    MonthStep(year, 1);
    MonthStep(year, 2);
    MonthStep(year, 3);
    MonthStep(year, 4);
    MonthStep(year, 5);
    MonthStep(year, 6);
    MonthStep(year, 7);
    MonthStep(year, 8);
    MonthStep(year, 9);
    MonthStep(year, 10);
    MonthStep(year, 11);
  }

  lemma MonthStep(year: int, month: int)
    requires month >= 1
    ensures DaysBeforeMonth(year, month + 1) == DaysBeforeMonth(year, month) + DaysInMonth(year, month)
  {
  }

  /** Stepping back one day lowers the ordinal by one, across month and year ends. */
  lemma PreviousDayOrdinal(d: Date)
    requires Valid(d)
    ensures Valid(PreviousDay(d)) && Ordinal(PreviousDay(d)) == Ordinal(d) - 1
  {
    if d.day == 1 && d.month == 1 {
      YearLength(d.year - 1);
      DecemberEnds(d.year - 1);
    }
  }

  lemma NextInCycle(x: int)
    ensures (x + 6) % 7 == ((x + 5) % 7 + 1) % 7
  {
  }

  lemma FirstDay()
    ensures Ordinal(Date(1, 1, 1)) == 1
  {
    assert DaysBeforeMonth(1, 1) == 0;
  }

  lemma KnownSaturday()
    ensures Weekday(Date(2000, 1, 1)) == 5
  {
    assert DaysBeforeYear(2000) == 730119;
    assert DaysBeforeMonth(2000, 1) == 0;
  }

  /** Weekdays follow one another, and the first day of 2000 was a Saturday: this fixes them all.  Day 1 is the
      first day of year 1. */
  lemma WeekdaysAreFixed(d: Date)
    requires Valid(d)
    ensures Weekday(d) == (Weekday(PreviousDay(d)) + 1) % 7
    ensures Weekday(Date(2000, 1, 1)) == 5 && Ordinal(Date(1, 1, 1)) == 1
  {
    FirstDay();
    hide Ordinal, PreviousDay, Valid;
    KnownSaturday();
    PreviousDayOrdinal(d);
    NextInCycle(Ordinal(d));
  }

  lemma {:induction false} MinusWithinMonth(d: Date, n: nat)
    requires Valid(d) && n < d.day
    ensures MinusDays(d, n) == d.(day := d.day - n)
    decreases n
  {
    if n > 0 {
      MinusWithinMonth(PreviousDay(d), n - 1);
    }
  }

  /** The expiry of monthly contracts, computed backwards from the first of the next month. */
  function LastThursday(year: int, month: int): Date {
    var firstOfNext := if month == 12 then Date(year + 1, 1, 1) else Date(year, month + 1, 1);
    var lastDay := MinusDays(firstOfNext, 1);
    MinusDays(lastDay, (Weekday(lastDay) - THURSDAY) % 7)
  }

  function LastDay(year: int, month: int): Date {
    Date(year, month, DaysInMonth(year, month))
  }

  /** How far back from the last day the last day with a given weekday lies. */
  lemma BackToThursday(last: int, back: int)
    requires back == ((last + 6) % 7 - THURSDAY) % 7
    ensures 0 <= back < 7 && (last - back + 6) % 7 == THURSDAY
  {
  }

  lemma LastThursdayForm(year: int, month: int)
    requires 1 <= month <= 12
    ensures var last := LastDay(year, month); var back := (Weekday(last) - THURSDAY) % 7;
            0 <= back < 7 && LastThursday(year, month) == last.(day := last.day - back)
  {
    hide Weekday, Ordinal, IsLeap;
    var last := LastDay(year, month);
    var firstOfNext := if month == 12 then Date(year + 1, 1, 1) else Date(year, month + 1, 1);
    assert MinusDays(firstOfNext, 1) == MinusDays(PreviousDay(firstOfNext), 0) == last;
    MinusWithinMonth(last, (Weekday(last) - THURSDAY) % 7);
  }

  /** It is a Thursday of that month, and the last one. */
  lemma LastThursdayIsLast(year: int, month: int)
    requires 1 <= month <= 12
    ensures var t := LastThursday(year, month);
            && Valid(t) && t.year == year && t.month == month && Weekday(t) == 3
            && forall d: Date :: Valid(d) && d.year == year && d.month == month && Weekday(d) == 3 ==>
                          d.day <= t.day
  {
    hide DaysInMonth, DaysBeforeMonth, DaysBeforeYear, LastThursday, MinusDays;
    LastThursdayForm(year, month);
    var last, t := LastDay(year, month), LastThursday(year, month);
    BackToThursday(Ordinal(last), last.day - t.day);
    assert Ordinal(t) == Ordinal(last) - (last.day - t.day);
    forall d: Date | Valid(d) && d.year == year && d.month == month && Weekday(d) == THURSDAY ensures d.day <= t.day {
      assert Ordinal(d) - Ordinal(t) == d.day - t.day;
      SameWeekday(Ordinal(d), Ordinal(t));
    }
  }

  lemma SameWeekday(a: int, b: int)
    requires (a + 6) % 7 == (b + 6) % 7 && a - b < 7
    ensures a <= b
  {
  }
}
