/** The civil (Gregorian) calendar that both cron expressions and native triggers speak about. */
module Calendar {
  datatype Date = Date(year: int, month: int, day: int)

  predicate Leap(year: int) { year % 4 == 0 && (year % 100 != 0 || year % 400 == 0) }

  function DaysInMonth(year: int, month: int): int
    requires 1 <= month <= 12
  {
    if month == 2 then (if Leap(year) then 29 else 28)
    else if month == 4 || month == 6 || month == 9 || month == 11 then 30
    else 31
  }

  predicate Valid(d: Date) { 1 <= d.month <= 12 && 1 <= d.day <= DaysInMonth(d.year, d.month) }

  /** Days of the year before this month. */
  function DaysBefore(year: int, month: int): int
    requires 1 <= month <= 12
    decreases month
  {
    if month == 1 then 0 else DaysBefore(year, month - 1) + DaysInMonth(year, month - 1)
  }

  /** Days since the end of the year 0. */
  function DayNumber(d: Date): int
    requires Valid(d)
  {
    var y := d.year - 1;
    365 * y + y / 4 - y / 100 + y / 400 + DaysBefore(d.year, d.month) + d.day
  }

  /** 0 is Sunday; 1 January of the year 1 was a Monday. */
  function Weekday(d: Date): int
    requires Valid(d)
  {
    DayNumber(d) % 7
  }

  /** The day after. */
  function Next(d: Date): (n: Date)
    requires Valid(d)
    ensures Valid(n)
  {
    if d.day < DaysInMonth(d.year, d.month) then Date(d.year, d.month, d.day + 1)
    else if d.month < 12 then Date(d.year, d.month + 1, 1)
    else Date(d.year + 1, 1, 1)
  }

  lemma DaysOfYear(year: int)
    ensures DaysBefore(year, 12) == if Leap(year) then 335 else 334
  {
    assert DaysBefore(year, 2) == 31;
    assert DaysBefore(year, 4) == DaysBefore(year, 2) + DaysInMonth(year, 2) + 31;
    assert DaysBefore(year, 6) == DaysBefore(year, 4) + 61;
    assert DaysBefore(year, 8) == DaysBefore(year, 6) + 61;
    assert DaysBefore(year, 10) == DaysBefore(year, 8) + 61;
    assert DaysBefore(year, 12) == DaysBefore(year, 10) + 61;
  }

  lemma Fourth(y: int)
    ensures y / 4 - (y - 1) / 4 == if y % 4 == 0 then 1 else 0
  {
  }

  lemma Hundredth(y: int)
    ensures y / 100 - (y - 1) / 100 == if y % 100 == 0 then 1 else 0
  {
  }

  lemma FourHundredth(y: int)
    ensures y / 400 - (y - 1) / 400 == if y % 400 == 0 then 1 else 0
    ensures (y % 400 == 0 ==> y % 100 == 0) && (y % 100 == 0 ==> y % 4 == 0)
  {
  }

  lemma LeapDays(y: int)
    ensures y / 4 - y / 100 + y / 400 - ((y - 1) / 4 - (y - 1) / 100 + (y - 1) / 400) == if Leap(y) then 1 else 0
  {
    Fourth(y);
    Hundredth(y);
    FourHundredth(y);
  }

  lemma NumbersFollow(d: Date)
    requires Valid(d)
    ensures DayNumber(Next(d)) == DayNumber(d) + 1
  {
    if d.day == DaysInMonth(d.year, d.month) {
      if d.month < 12 {
        assert DaysBefore(d.year, d.month + 1) == DaysBefore(d.year, d.month) + DaysInMonth(d.year, d.month);
      } else {
        NewYear(d.year);
      }
    }
  }

  lemma NewYear(year: int)
    ensures DayNumber(Date(year + 1, 1, 1)) == DayNumber(Date(year, 12, 31)) + 1
  {
    DaysOfYear(year);
    LeapDays(year);
    assert DaysBefore(year + 1, 1) == 0;
    hide Leap, DaysBefore;
  }

  /** Days are numbered without gaps, so weekdays follow each other in turn, across months and years. */
  lemma WeekdaysFollow(d: Date)
    requires Valid(d)
    ensures DayNumber(Next(d)) == DayNumber(d) + 1
    ensures Weekday(Next(d)) == if Weekday(d) == 6 then 0 else Weekday(d) + 1
  {
    hide DayNumber, Next;
    NumbersFollow(d);
    Turn(DayNumber(d));
  }

  lemma Turn(n: int)
    ensures (n + 1) % 7 == if n % 7 == 6 then 0 else n % 7 + 1
  {
  }

  predicate NotBefore(d: Date, from: Date) {
    from.year < d.year
    || (from.year == d.year && (from.month < d.month || (from.month == d.month && from.day <= d.day)))
  }

  lemma MonthStarts(year: int, month: int)
    requires 1 <= month <= 12
    ensures DaysBefore(year, month) >= 0
    ensures forall later :: month < later <= 12 ==>
              DaysBefore(year, later) >= DaysBefore(year, month) + DaysInMonth(year, month)
    ensures DaysBefore(year, month) + DaysInMonth(year, month) <= if Leap(year) then 366 else 365
    decreases 12 - month
  {
    DaysOfYear(year);
    if month < 12 {
      MonthStarts(year, month + 1);
      assert DaysBefore(year, month + 1) == DaysBefore(year, month) + DaysInMonth(year, month);
    }
    DaysAreNotNegative(year, month);
  }

  lemma {:induction false} DaysAreNotNegative(year: int, month: int)
    requires 1 <= month <= 12
    ensures DaysBefore(year, month) >= 0
    decreases month
  {
    if month > 1 {
      DaysAreNotNegative(year, month - 1);
    }
  }

  /** The last day before a year. */
  function YearStart(year: int): int { 365 * (year - 1) + (year - 1) / 4 - (year - 1) / 100 + (year - 1) / 400 }

  lemma {:induction false} YearsFollow(year: int, later: int)
    requires year < later
    ensures YearStart(later) >= YearStart(year) + (if Leap(year) then 366 else 365)
    decreases later - year
  {
    LeapDays(year);
    if year + 1 < later {
      YearsFollow(year + 1, later);
    }
  }

  lemma EarlierIsSmaller(d: Date, from: Date)
    requires Valid(d) && Valid(from) && !NotBefore(d, from)
    ensures DayNumber(d) < DayNumber(from)
  {
    MonthStarts(d.year, d.month);
    MonthStarts(from.year, from.month);
    hide DaysBefore, DaysInMonth, Leap;
    assert DayNumber(d) == YearStart(d.year) + DaysBefore(d.year, d.month) + d.day;
    assert DayNumber(from) == YearStart(from.year) + DaysBefore(from.year, from.month) + from.day;
    if d.year < from.year {
      YearsFollow(d.year, from.year);
    }
  }

  /** The order of dates is the order of their numbers. */
  lemma NotBeforeExactly(d: Date, from: Date)
    requires Valid(d) && Valid(from)
    ensures NotBefore(d, from) <==> DayNumber(d) >= DayNumber(from)
  {
    hide DayNumber;
    if !NotBefore(d, from) {
      EarlierIsSmaller(d, from);
    } else if d != from {
      EarlierIsSmaller(from, d);
    }
  }

  /** The lengths of the months. */
  lemma MonthLengths(year: int, month: int)
    requires 1 <= month <= 12
    ensures DaysInMonth(year, month)
            == [31, if Leap(year) then 29 else 28, 31, 30, 31, 30, 31, 31, 30, 31, 30, 31][month - 1]
  {
  }

  /** Some years and dates that are known. */
  lemma KnownDates()
    ensures Leap(2024) && !Leap(2023) && !Leap(1900) && Leap(2000)
    ensures Weekday(Date(1970, 1, 1)) == 4 && Weekday(Date(2000, 2, 29)) == 2 && Weekday(Date(2024, 12, 25)) == 3
  {
    DaysOfYear(2024);
    assert DaysBefore(2000, 2) == 31;
  }

  // ---- occurrences of a weekday in a month -------------------------------------------------------

  /** The dates of the month up to `d` that fall on its weekday. */
  ghost function SameWeekdayUpTo(d: Date): set<int>
    requires Valid(d)
  {
    set day | 1 <= day <= d.day && Weekday(Date(d.year, d.month, day)) == Weekday(d)
  }

  /** Which occurrence of its weekday in the month a date is. */
  function Occurrence(d: Date): int { (d.day - 1) / 7 + 1 }

  /** Whether the weekday does not occur again in the month. */
  predicate LastOccurrence(d: Date)
    requires Valid(d)
  {
    d.day + 7 > DaysInMonth(d.year, d.month)
  }

  lemma WeekdayInMonth(d: Date, day: int)
    requires Valid(d) && 1 <= day <= DaysInMonth(d.year, d.month)
    ensures Weekday(Date(d.year, d.month, day)) == Weekday(d) <==> (d.day - day) % 7 == 0
  {
    var e := Date(d.year, d.month, day);
    assert DayNumber(d) - DayNumber(e) == d.day - day;
    var (a, b) := (DayNumber(d), DayNumber(e));
    assert (a - b) % 7 == 0 <==> a % 7 == b % 7;
  }

  /** Occurrence counts the dates with the same weekday, and LastOccurrence says none is left. */
  lemma OccurrenceCounts(d: Date)
    requires Valid(d)
    ensures |SameWeekdayUpTo(d)| == Occurrence(d)
    ensures LastOccurrence(d) <==>
      forall day :: d.day < day <= DaysInMonth(d.year, d.month) ==> Weekday(Date(d.year, d.month, day)) != Weekday(d)
    decreases d.day
  {
    CountUpTo(d);
    forall day | d.day < day <= DaysInMonth(d.year, d.month) && LastOccurrence(d)
      ensures Weekday(Date(d.year, d.month, day)) != Weekday(d)
    {
      WeekdayInMonth(d, day);
    }
    if !LastOccurrence(d) {
      WeekdayInMonth(d, d.day + 7);
    }
  }

  lemma CountUpTo(d: Date)
    requires Valid(d)
    ensures |SameWeekdayUpTo(d)| == Occurrence(d)
  {
    forall day ensures day in SameWeekdayUpTo(d) <==> day in WeeksBack(d.day) {
      if 1 <= day <= d.day {
        WeekdayInMonth(d, day);
      }
    }
    assert SameWeekdayUpTo(d) == WeeksBack(d.day);
    WeeksBackCount(d.day);
  }

  /** The positive numbers a whole number of weeks before `n`. */
  ghost function WeeksBack(n: int): set<int> { set day | 1 <= day <= n && WholeWeeks(n, day) }

  predicate WholeWeeks(n: int, day: int) { (n - day) % 7 == 0 }

  lemma {:induction false} WeeksBackCount(n: int)
    requires n > 0
    ensures |WeeksBack(n)| == (n - 1) / 7 + 1
  {
    if n <= 7 {
      assert WeeksBack(n) == {n};
    } else {
      WeeksBackCount(n - 7);
      forall day ensures day in WeeksBack(n) <==> day in WeeksBack(n - 7) + {n} {
        assert WholeWeeks(n, day) <==> WholeWeeks(n - 7, day);
      }
      assert WeeksBack(n) == WeeksBack(n - 7) + {n};
    }
  }
}
