/**
 * Calendar days, the Gregorian month lengths, and the normalisation that the
 * JavaScript `Date` constructor applies to its (year, monthIndex, day) arguments.
 * Records carry a calendar day; time of day plays no part (see README).
 */
module Calendar {

  datatype Date = Date(year: int, month: int, day: int)

  /** Gregorian leap years. `%` with a positive divisor is the floor modulus, as in the proleptic calendar. */
  predicate IsLeapYear(y: int)
  {
    y % 4 == 0 && (y % 100 != 0 || y % 400 == 0)
  }

  /** Number of days in month `m` (1-based) of year `y`. */
  function DaysInMonth(y: int, m: int): (n: int)
    requires 1 <= m <= 12
    ensures 28 <= n <= 31
    ensures m == 2 ==> (n == 29 <==> IsLeapYear(y))
    ensures m != 2 ==> 30 <= n
  {
    if m == 2 then (if IsLeapYear(y) then 29 else 28)
    else if m == 4 || m == 6 || m == 9 || m == 11 then 30
    else 31
  }

  /** A day that exists in the calendar. */
  predicate IsCalendarDate(d: Date)
  {
    1 <= d.month <= 12 && 1 <= d.day <= DaysInMonth(d.year, d.month)
  }

  /** Strict chronological order of days (lexicographic on year, month, day). */
  predicate Earlier(a: Date, b: Date)
  {
    a.year < b.year
    || (a.year == b.year && (a.month < b.month || (a.month == b.month && a.day < b.day)))
  }

  /** `a` is the same day as `b` or an earlier one. */
  predicate NotLater(a: Date, b: Date)
  {
    !Earlier(b, a)
  }

  /**
   * The day a "YYYY-MM-DD" string denotes once the engine has accepted it:
   * V8 accepts any day 1..31 in any month 1..12, and the Date value it builds
   * carries a day past the end of the month into the next month
   * ("2024-02-30" is 2024-03-01).
   */
  function CarryOver(y: int, m: int, d: int): (r: Date)
    requires 1 <= m <= 12 && 1 <= d <= 31
    ensures IsCalendarDate(r)
    ensures IsCalendarDate(Date(y, m, d)) <==> r == Date(y, m, d)
    ensures NotLater(Date(y, m, d), r)
  {
    var n := DaysInMonth(y, m);
    if d <= n then Date(y, m, d)
    else Date(y, m + 1, d - n)
  }

  /** The constructor's two-digit-year rule: a year argument 0..99 means 1900..1999. */
  function FullYear(y: int): (r: int)
    ensures 0 <= y <= 99 ==> r == 1900 + y
    ensures !(0 <= y <= 99) ==> r == y
  {
    if 0 <= y <= 99 then 1900 + y else y
  }

  /**
   * `new Date(y, m0, 1)`: the first day of month index `m0` (0-based, any integer;
   * twelve month indexes make a year, negative ones count back).
   */
  function FirstOfMonth(y: int, m0: int): (d: Date)
    ensures IsCalendarDate(d) && d.day == 1
    ensures 0 <= m0 < 12 ==> d == Date(FullYear(y), m0 + 1, 1)
  {
    Date(FullYear(y) + m0 / 12, m0 % 12 + 1, 1)
  }

  /** The calendar day before `d`; no calendar day lies strictly between the two. */
  function PreviousDay(d: Date): (r: Date)
    requires IsCalendarDate(d)
    ensures IsCalendarDate(r) && Earlier(r, d)
    ensures forall x :: IsCalendarDate(x) ==> !(Earlier(r, x) && Earlier(x, d))
  {
    if d.day > 1 then Date(d.year, d.month, d.day - 1)
    else if d.month > 1 then Date(d.year, d.month - 1, DaysInMonth(d.year, d.month - 1))
    else Date(d.year - 1, 12, 31)
  }

  /** `new Date(y, m0, 0)`: day zero of a month is the day before its first day. */
  function DayZero(y: int, m0: int): Date
  {
    PreviousDay(FirstOfMonth(y, m0))
  }

  /** `new Date(y, 11, 31)`: the last day of the year. */
  function LastOfYear(y: int): (d: Date)
    ensures IsCalendarDate(d)
  {
    Date(FullYear(y), 12, 31)
  }

  /**
   * Day zero of the following month index is the last day of month index `m0`,
   * whatever its length (leap Februaries included) and across a year end.
   */
  lemma DayZeroOfNextMonthIsLastDay(y: int, m0: int)
    ensures var f := FirstOfMonth(y, m0);
      DayZero(y, m0 + 1) == Date(f.year, f.month, DaysInMonth(f.year, f.month))
  {
    var q, r := m0 / 12, m0 % 12;
    assert m0 == 12 * q + r && 0 <= r < 12;
    if r == 11 {
      assert m0 + 1 == 12 * (q + 1) + 0;
      assert (m0 + 1) / 12 == q + 1 && (m0 + 1) % 12 == 0;
    } else {
      assert m0 + 1 == 12 * q + (r + 1);
      assert (m0 + 1) / 12 == q && (m0 + 1) % 12 == r + 1;
    }
  }
}
