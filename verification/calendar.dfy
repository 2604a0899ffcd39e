/**
 * Proleptic Gregorian calendar arithmetic as Python's `datetime` performs
 * it: a date's ordinal counts days from 0001-01-01 (ordinal 1), and the
 * weekday is derived from the ordinal (Monday is 0, as in `weekday()`).
 */
module Calendar {

  datatype Date = Date(year: int, month: int, day: int)

  predicate IsLeap(y: int) {
    y % 4 == 0 && (y % 100 != 0 || y % 400 == 0)
  }

  function DaysInMonth(y: int, m: int): (n: int)
    requires 1 <= m <= 12
    ensures 28 <= n <= 31
  {
    if m == 2 then (if IsLeap(y) then 29 else 28)
    else if m == 4 || m == 6 || m == 9 || m == 11 then 30
    else 31
  }

  function DaysInYear(y: int): int {
    if IsLeap(y) then 366 else 365
  }

  /** A date `datetime.date` accepts: years 1 to 9999 and a day the month has. */
  predicate Valid(d: Date) {
    && 1 <= d.year <= 9999
    && 1 <= d.month <= 12
    && 1 <= d.day <= DaysInMonth(d.year, d.month)
  }

  /** Days in the years before `y`, in closed form. */
  function DaysBeforeYear(y: int): int
    requires y >= 1
  {
    var p := y - 1;
    p * 365 + p / 4 - p / 100 + p / 400
  }

  /** Days in the months of year `y` before month `m`. */
  function DaysBeforeMonth(y: int, m: int): int
    requires 1 <= m <= 12
  {
    var table := [0, 31, 59, 90, 120, 151, 181, 212, 243, 273, 304, 334];
    table[m - 1] + (if m > 2 && IsLeap(y) then 1 else 0)
  }

  /** `date.toordinal()` */
  function Ordinal(d: Date): int
    requires Valid(d)
  {
    DaysBeforeYear(d.year) + DaysBeforeMonth(d.year, d.month) + d.day
  }

  /** `date.weekday()`: Monday is 0 and Sunday is 6. */
  function Weekday(d: Date): (w: int)
    requires Valid(d)
    ensures 0 <= w < 7
  {
    (Ordinal(d) + 6) % 7
  }

  /** The last date `datetime` can represent. */
  const MaxDate := Date(9999, 12, 31)

  /** The calendar's successor: the date one day after `d`. */
  function NextDay(d: Date): Date
    requires Valid(d)
  {
    if d.day < DaysInMonth(d.year, d.month) then Date(d.year, d.month, d.day + 1)
    else if d.month < 12 then Date(d.year, d.month + 1, 1)
    else Date(d.year + 1, 1, 1)
  }

  /** Days before year `y`, counted one year at a time. */
  function DaysBeforeYearByCounting(y: int): int
    requires y >= 1
    decreases y
  {
    if y == 1 then 0 else DaysBeforeYearByCounting(y - 1) + DaysInYear(y - 1)
  }

  /** Counting one further year adds one multiple of 4, 100 or 400 exactly when it is one. */
  lemma NextQuotients(p: int)
    requires p >= 0
    ensures (p + 1) / 4 == p / 4 + (if (p + 1) % 4 == 0 then 1 else 0)
    ensures (p + 1) / 100 == p / 100 + (if (p + 1) % 100 == 0 then 1 else 0)
    ensures (p + 1) / 400 == p / 400 + (if (p + 1) % 400 == 0 then 1 else 0)
  {
  }

  /** The closed form adds exactly the length of year `y` when moving to `y + 1`. */
  lemma DaysBeforeNextYear(y: int)
    requires y >= 1
    ensures DaysBeforeYear(y + 1) == DaysBeforeYear(y) + DaysInYear(y)
  {
    NextQuotients(y - 1);
  }

  /** The closed form used by `toordinal` agrees with counting year lengths. */
  lemma {:induction false} DaysBeforeYearCounts(y: int)
    requires y >= 1
    ensures DaysBeforeYear(y) == DaysBeforeYearByCounting(y)
    decreases y
  {
    if y > 1 {
      DaysBeforeYearCounts(y - 1);
      DaysBeforeNextYear(y - 1);
    }
  }

  /** The ordinal advances by one from each date to the next. */
  lemma NextDayOrdinal(d: Date)
    requires Valid(d) && d != MaxDate
    ensures Valid(NextDay(d))
    ensures Ordinal(NextDay(d)) == Ordinal(d) + 1
  {
    if d.day == DaysInMonth(d.year, d.month) && d.month == 12 {
      DaysBeforeNextYear(d.year);
    }
  }

  /** Consecutive dates fall on consecutive weekdays. */
  lemma NextDayWeekday(d: Date)
    requires Valid(d) && d != MaxDate
    ensures Valid(NextDay(d))
    ensures Weekday(NextDay(d)) == (Weekday(d) + 1) % 7
  {
    NextDayOrdinal(d);
    NextRemainder(Ordinal(d) + 6);
  }

  /** The remainder of the next number is the next remainder, wrapping at 7. */
  lemma NextRemainder(o: int)
    requires o >= 0
    ensures (o + 1) % 7 == (o % 7 + 1) % 7
  {
  }

  /**
   * The weekday function is anchored where `datetime` anchors it: the first
   * day of the calendar was a Monday, and 1 January 2025 a Wednesday.
   */
  lemma KnownWeekdays()
    ensures Weekday(Date(1, 1, 1)) == 0
    ensures Weekday(Date(2025, 1, 1)) == 2
  {
  }

  /** `calendar.day_name`: the `%A` directive in the C locale. */
  function WeekdayName(w: int): string
    requires 0 <= w < 7
  {
    ["Monday", "Tuesday", "Wednesday", "Thursday", "Friday", "Saturday", "Sunday"][w]
  }

  /** `calendar.month_name`: the `%B` directive in the C locale. */
  function MonthName(m: int): string
    requires 1 <= m <= 12
  {
    ["January", "February", "March", "April", "May", "June", "July",
     "August", "September", "October", "November", "December"][m - 1]
  }
}
