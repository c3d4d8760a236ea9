/**
 * The GET /expenses query resolution (backend/server.js): the category
 * condition, the date window and the sort directive built from the query
 * string, as one technology-neutral predicate and one ordering.
 */
module Query {
  import opened Wrappers
  import opened Calendar
  import opened ExpenseModel

  /**
   * The `month` parameter: absent or empty, the literal "All", or the number
   * `parseInt` reads from it.
   */
  datatype MonthParam = NoMonth | AllMonths | MonthNumber(n: int)

  /**
   * The query string. `None` is an absent or empty parameter. `year` is the
   * number `parseInt` reads from a non-empty parameter; `specificDate` is the
   * calendar day the parameter denotes, so an impossible day such as
   * "2024-02-30" arrives already carried over (`CarryOver`), as `new Date`
   * reads it.
   */
  datatype ListQuery = ListQuery(
    category: Option<string>,
    sort: Option<string>,
    year: Option<int>,
    month: MonthParam,
    specificDate: Option<Date>)

  /** The inclusive day range a query selects, or no date condition at all. */
  datatype Window = AnyDate | Span(first: Date, last: Date)

  predicate InWindow(d: Date, w: Window)
  {
    match w
    case AnyDate => true
    case Span(first, last) => NotLater(first, d) && NotLater(d, last)
  }

  /**
   * The date window: a specific date wins over year and month; a year with a
   * month runs from day 1 of that month to day 0 of the next; a year alone
   * runs from 1 January to 31 December; otherwise every date matches.
   */
  function ResolveWindow(q: ListQuery): (w: Window)
    ensures w.Span? ==> NotLater(w.first, w.last)
    ensures w.Span? && q.specificDate.None? ==> IsCalendarDate(w.first) && IsCalendarDate(w.last)
  {
    if q.specificDate.Some? then
      Span(q.specificDate.value, q.specificDate.value)
    else if q.year.Some? then
      var y := q.year.value;
      match q.month
      case MonthNumber(n) =>
        DayZeroOfNextMonthIsLastDay(y, n - 1);
        Span(FirstOfMonth(y, n - 1), DayZero(y, n))
      case _ => Span(FirstOfMonth(y, 0), LastOfYear(y))
    else
      AnyDate
  }

  /** `category && category !== 'All'` adds an equality condition; otherwise none. */
  function CategoryHolds(category: Option<string>, e: Expense): (b: bool)
    ensures category == Some(e.category) ==> b
    ensures !b ==> category.Some? && e.category != category.value
  {
    match category
    case Some(c) => c == "" || c == "All" || e.category == c
    case None => true
  }

  /** The store-level predicate: the category condition AND the date window. */
  function Matches(q: ListQuery, e: Expense): (b: bool)
    ensures q.category.None? && q.specificDate.None? && q.year.None? ==> b
    ensures b && q.specificDate.Some? ==> e.date == q.specificDate.value
  {
    CategoryHolds(q.category, e) && InWindow(e.date, ResolveWindow(q))
  }

  /** The query object has a category key and a date key only: no other field of a record matters. */
  lemma MatchesSeesCategoryAndDate(q: ListQuery, e1: Expense, e2: Expense)
    requires e1.category == e2.category && e1.date == e2.date
    ensures Matches(q, e1) == Matches(q, e2)
  {
  }

  /** The three orderings the sort parameter selects, plus the date-only one of the client. */
  datatype SortKey =
    | DateThenCreated(descending: bool)
    | NewestFirst
    | DateOnly(descending: bool)

  /** `sort`: "date_desc", "date_asc", and anything else (absent included) for newest-first. */
  function ResolveSort(sort: Option<string>): (k: SortKey)
    ensures k == DateThenCreated(true) <==> sort == Some("date_desc")
    ensures k == DateThenCreated(false) <==> sort == Some("date_asc")
    ensures k == NewestFirst <==> sort != Some("date_desc") && sort != Some("date_asc")
  {
    if sort == Some("date_desc") then DateThenCreated(true)
    else if sort == Some("date_asc") then DateThenCreated(false)
    else NewestFirst
  }

  /** A query with `category=All` selects exactly what a query without a category selects. */
  lemma AllCategoryIsNoFilter(q: ListQuery, e: Expense)
    ensures Matches(q.(category := Some("All")), e) == Matches(q.(category := None), e)
  {
  }

  /** Any other category requires exact equality. */
  lemma CategoryIsExact(q: ListQuery, e: Expense, c: string)
    requires c != "" && c != "All"
    ensures Matches(q.(category := Some(c)), e) <==> e.category == c && Matches(q.(category := None), e)
  {
  }

  /** A specific date wins: year and month then play no part, and only that day matches. */
  lemma SpecificDateWins(q: ListQuery, e: Expense, d: Date, year: Option<int>, month: MonthParam)
    requires q.specificDate == Some(d)
    ensures Matches(q, e) == Matches(q.(year := year, month := month), e)
    ensures InWindow(e.date, ResolveWindow(q)) <==> e.date == d
  {
  }

  /** Without a specific date or a year, every date matches. */
  lemma NoDateFilter(q: ListQuery, e: Expense)
    requires q.specificDate.None? && q.year.None?
    ensures Matches(q, e) == CategoryHolds(q.category, e)
  {
  }

  /**
   * The month window of year `y` and month `n` (1..12, or beyond, which rolls
   * over into other years) is the whole month: it starts on day 1 and ends on
   * the month's last day, whatever its length.
   */
  lemma MonthWindowBounds(q: ListQuery, y: int, n: int)
    requires q.specificDate.None? && q.year == Some(y) && q.month == MonthNumber(n)
    ensures var f := FirstOfMonth(y, n - 1);
      ResolveWindow(q) == Span(f, Date(f.year, f.month, DaysInMonth(f.year, f.month)))
  {
    DayZeroOfNextMonthIsLastDay(y, n - 1);
  }

  /** A calendar day is in the month window exactly when it lies in that month. */
  lemma {:induction false} MonthWindowExact(q: ListQuery, y: int, n: int, d: Date)
    requires q.specificDate.None? && q.year == Some(y) && q.month == MonthNumber(n)
    requires IsCalendarDate(d)
    ensures var f := FirstOfMonth(y, n - 1);
      InWindow(d, ResolveWindow(q)) <==> d.year == f.year && d.month == f.month
  {
    MonthWindowBounds(q, y, n);
  }

  /** For a month 1..12 and a year of at least three digits the window is that month of that year. */
  lemma {:induction false} PlainMonthWindow(q: ListQuery, y: int, n: int, d: Date)
    requires q.specificDate.None? && q.year == Some(y) && q.month == MonthNumber(n)
    requires 1 <= n <= 12 && !(0 <= y <= 99)
    requires IsCalendarDate(d)
    ensures InWindow(d, ResolveWindow(q)) <==> d.year == y && d.month == n
  {
    MonthWindowExact(q, y, n, d);
  }

  /** A year without a month (or with "All") selects every day of that year. */
  lemma YearWindowExact(q: ListQuery, y: int, d: Date)
    requires q.specificDate.None? && q.year == Some(y) && !q.month.MonthNumber?
    requires IsCalendarDate(d)
    ensures InWindow(d, ResolveWindow(q)) <==> d.year == FullYear(y)
  {
  }

  /** The leap day 2024-02-29 is in February 2024, but not in 2023 nor in February 2025. */
  lemma LeapDayBoundaries(q: ListQuery, e: Expense)
    requires q.specificDate.None? && q.category.None?
    requires e.date == Date(2024, 2, 29)
    ensures Matches(q.(year := Some(2024), month := MonthNumber(2)), e)
    ensures !Matches(q.(year := Some(2023), month := NoMonth), e)
    ensures !Matches(q.(year := Some(2025), month := MonthNumber(2)), e)
  {
    PlainMonthWindow(q.(year := Some(2024), month := MonthNumber(2)), 2024, 2, e.date);
    YearWindowExact(q.(year := Some(2023), month := NoMonth), 2023, e.date);
    PlainMonthWindow(q.(year := Some(2025), month := MonthNumber(2)), 2025, 2, e.date);
  }

  /** `new Date(2024, 12, 0)`: the month after December rolls over, so month 12 ends on 31 December. */
  lemma DecemberWindow(q: ListQuery)
    requires q.specificDate.None? && q.year == Some(2024) && q.month == MonthNumber(12)
    ensures ResolveWindow(q) == Span(Date(2024, 12, 1), Date(2024, 12, 31))
  {
    MonthWindowBounds(q, 2024, 12);
  }

  /** Two-digit years follow the constructor's rule: `year=24` selects 1924. */
  lemma TwoDigitYear(q: ListQuery)
    requires q.specificDate.None? && q.year == Some(24) && q.month == NoMonth
    ensures ResolveWindow(q) == Span(Date(1924, 1, 1), Date(1924, 12, 31))
  {
  }
}
