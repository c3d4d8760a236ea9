/**
 * The POST /expenses validation chain (backend/server.js): required fields,
 * then the amount, then the date string, checked in that order.
 */
module Validation {
  import opened Wrappers
  import opened Calendar

  /** The JSON values a request body field can hold (numbers are integers here). */
  datatype JsValue = Undefined | Null | Bool(b: bool) | Num(n: int) | Str(s: string)

  /** JavaScript truthiness: `undefined`, `null`, `false`, `0` and `""` are falsy. */
  predicate Truthy(v: JsValue)
  {
    match v
    case Undefined => false
    case Null => false
    case Bool(b) => b
    case Num(n) => n != 0
    case Str(s) => s != ""
  }

  /** A string field is truthy when it is there and its string is. */
  predicate Present(f: Option<string>)
  {
    f.Some? && Truthy(Str(f.value))
  }

  /** The body of a create request. `None` is an absent (or null) field. */
  datatype Payload = Payload(
    id: Option<string>,
    amount: JsValue,
    category: Option<string>,
    description: Option<string>,
    date: Option<string>)

  /** The three 400 answers of the create path. */
  datatype Rejection = MissingFields | InvalidAmount | InvalidDate

  /** The fields of an accepted request, with its date as the calendar day it denotes. */
  datatype Checked = Checked(id: string, amount: int, category: string, description: Option<string>, day: Date)

  predicate IsDigit(c: char)
  {
    '0' <= c <= '9'
  }

  /** `/^\d{4}-\d{2}-\d{2}$/`: exactly ten characters, dashes at 4 and 7, ASCII digits elsewhere. */
  predicate MatchesDatePattern(s: string)
  {
    |s| == 10 && s[4] == '-' && s[7] == '-'
    && forall i :: 0 <= i < 10 && i != 4 && i != 7 ==> IsDigit(s[i])
  }

  function DigitValue(c: char): (v: int)
    requires IsDigit(c)
    ensures 0 <= v <= 9
  {
    c as int - '0' as int
  }

  function DigitChar(v: int): (c: char)
    requires 0 <= v <= 9
    ensures IsDigit(c) && DigitValue(c) == v
  {
    ('0' as int + v) as char
  }

  /** The number written by two digit characters. */
  function PairValue(hi: char, lo: char): (v: int)
    requires IsDigit(hi) && IsDigit(lo)
    ensures 0 <= v <= 99
  {
    10 * DigitValue(hi) + DigitValue(lo)
  }

  /** A number 0..99 written with two digits, zero-padded. */
  function Pair(n: int): (s: string)
    requires 0 <= n <= 99
    ensures |s| == 2 && IsDigit(s[0]) && IsDigit(s[1])
  {
    [DigitChar(n / 10), DigitChar(n % 10)]
  }

  lemma PairRoundTrip(n: int)
    requires 0 <= n <= 99
    ensures PairValue(Pair(n)[0], Pair(n)[1]) == n
  {
  }

  lemma PairOfValue(hi: char, lo: char)
    requires IsDigit(hi) && IsDigit(lo)
    ensures Pair(PairValue(hi, lo)) == [hi, lo]
  {
    var a, b := DigitValue(hi), DigitValue(lo);
    assert (10 * a + b) / 10 == a && (10 * a + b) % 10 == b;
  }

  /** The year, month and day numbers written in a string of the pattern. */
  function DateFields(s: string): (f: (int, int, int))
    requires MatchesDatePattern(s)
    ensures 0 <= f.0 <= 9999 && 0 <= f.1 <= 99 && 0 <= f.2 <= 99
  {
    (100 * PairValue(s[0], s[1]) + PairValue(s[2], s[3]),
     PairValue(s[5], s[6]),
     PairValue(s[8], s[9]))
  }

  /** Writes a year 0..9999 and a month and day 0..99 in the pattern, zero-padded. */
  function FormatDate(y: int, m: int, d: int): (s: string)
    requires 0 <= y <= 9999 && 0 <= m <= 99 && 0 <= d <= 99
    ensures MatchesDatePattern(s)
  {
    Pair(y / 100) + Pair(y % 100) + "-" + Pair(m) + "-" + Pair(d)
  }

  /** Reading back a formatted date gives its numbers again. */
  lemma FieldsOfFormat(y: int, m: int, d: int)
    requires 0 <= y <= 9999 && 0 <= m <= 99 && 0 <= d <= 99
    ensures DateFields(FormatDate(y, m, d)) == (y, m, d)
  {
    var s := FormatDate(y, m, d);
    PairRoundTrip(y / 100);
    PairRoundTrip(y % 100);
    PairRoundTrip(m);
    PairRoundTrip(d);
    assert s[0..2] == Pair(y / 100) && s[2..4] == Pair(y % 100);
    assert s[5..7] == Pair(m) && s[8..10] == Pair(d);
  }

  /** Every string of the pattern is the formatting of its own numbers. */
  lemma FormatOfFields(s: string)
    requires MatchesDatePattern(s)
    ensures var f := DateFields(s); FormatDate(f.0, f.1, f.2) == s
  {
    var f := DateFields(s);
    var hi, lo := PairValue(s[0], s[1]), PairValue(s[2], s[3]);
    assert f.0 / 100 == hi && f.0 % 100 == lo;
    PairOfValue(s[0], s[1]);
    PairOfValue(s[2], s[3]);
    PairOfValue(s[5], s[6]);
    PairOfValue(s[8], s[9]);
    assert s == [s[0], s[1]] + [s[2], s[3]] + "-" + [s[5], s[6]] + "-" + [s[8], s[9]];
  }

  /**
   * `isValidDate`: the string has the pattern and the engine's date parser
   * accepts it, which for V8 means a month 1..12 and a day 1..31.
   */
  predicate IsValidDate(s: string)
  {
    MatchesDatePattern(s) && 1 <= DateFields(s).1 <= 12 && 1 <= DateFields(s).2 <= 31
  }

  /**
   * The strings `isValidDate` accepts are exactly the zero-padded writings of
   * a year 0..9999, a month 1..12 and a day 1..31.
   */
  lemma ValidDateStrings(s: string)
    ensures IsValidDate(s) <==>
      exists y, m, d :: 0 <= y <= 9999 && 1 <= m <= 12 && 1 <= d <= 31 && s == FormatDate(y, m, d)
  {
    if IsValidDate(s) {
      var f := DateFields(s);
      FormatOfFields(s);
      assert s == FormatDate(f.0, f.1, f.2);
    }
    if exists y, m, d :: 0 <= y <= 9999 && 1 <= m <= 12 && 1 <= d <= 31 && s == FormatDate(y, m, d) {
      var y, m, d :| 0 <= y <= 9999 && 1 <= m <= 12 && 1 <= d <= 31 && s == FormatDate(y, m, d);
      FieldsOfFormat(y, m, d);
    }
  }

  /** The calendar day an accepted date string denotes once stored as a Date. */
  function DayOf(s: string): (d: Date)
    requires IsValidDate(s)
    ensures IsCalendarDate(d)
  {
    var f := DateFields(s);
    CarryOver(f.0, f.1, f.2)
  }

  /** True exactly when the four required fields are all truthy. */
  predicate AllPresent(p: Payload)
  {
    Present(p.id) && Truthy(p.amount) && Present(p.category) && Present(p.date)
  }

  /** `typeof amount === 'number' && amount > 0` */
  predicate PositiveNumber(v: JsValue)
  {
    v.Num? && v.n > 0
  }

  /** The validation chain: missing fields, then the amount, then the date. */
  function Validate(p: Payload): (r: Result<Checked, Rejection>)
    ensures r == Failure(MissingFields) <==> !AllPresent(p)
    ensures r == Failure(InvalidAmount) <==> AllPresent(p) && !PositiveNumber(p.amount)
    ensures r == Failure(InvalidDate) <==>
              AllPresent(p) && PositiveNumber(p.amount) && !IsValidDate(p.date.value)
    ensures r.Success? ==>
              && Present(p.id) && r.value.id == p.id.value
              && r.value.amount == p.amount.n && r.value.amount > 0
              && Present(p.category) && r.value.category == p.category.value
              && r.value.description == p.description
              && IsValidDate(p.date.value) && r.value.day == DayOf(p.date.value)
  {
    if !AllPresent(p) then Failure(MissingFields)
    else if !PositiveNumber(p.amount) then Failure(InvalidAmount)
    else if !IsValidDate(p.date.value) then Failure(InvalidDate)
    else Success(Checked(p.id.value, p.amount.n, p.category.value, p.description, DayOf(p.date.value)))
  }

  /** An amount of 0 is falsy, so it is reported as a missing field, not as a bad amount. */
  lemma ZeroAmountIsMissing(p: Payload)
    requires p.amount == Num(0)
    ensures Validate(p) == Failure(MissingFields)
  {
  }

  /** A missing field is reported whatever the other fields hold, however malformed. */
  lemma MissingWinsOverOtherChecks(p: Payload, amount: JsValue, date: Option<string>)
    requires !Present(p.id) || !Present(p.category)
    ensures Validate(p.(amount := amount, date := date)) == Failure(MissingFields)
  {
  }

  /** An accepted request whose date string names a real day keeps that very day. */
  lemma AcceptedDateRoundTrip(p: Payload)
    requires Validate(p).Success?
    requires var f := DateFields(p.date.value); IsCalendarDate(Date(f.0, f.1, f.2))
    ensures var d := Validate(p).value.day;
      0 <= d.year <= 9999 && FormatDate(d.year, d.month, d.day) == p.date.value
  {
    var f := DateFields(p.date.value);
    assert Validate(p).value.day == Date(f.0, f.1, f.2);
    FormatOfFields(p.date.value);
  }

  /** "2024-02-30" passes `isValidDate`, and is stored as 1 March 2024. */
  lemma ImpossibleDayCarriesOver()
    ensures IsValidDate("2024-02-30")
    ensures DayOf("2024-02-30") == Date(2024, 3, 1)
  {
    assert DateFields("2024-02-30") == (2024, 2, 30);
  }
}
