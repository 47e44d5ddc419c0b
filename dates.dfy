/**
 * Calendar dates as the scripts use them: Python `date` values (proleptic Gregorian,
 * years 1 to 9999), `calendar.monthrange`'s month lengths, and the conversion of an Excel
 * serial day number counted from 1899-12-30.
 */
module Dates {
  import opened Wrappers

  datatype Date = Date(year: int, month: int, day: int)

  /** The Gregorian leap-year rule. */
  predicate IsLeapYear(y: int) {
    y % 4 == 0 && (y % 100 != 0 || y % 400 == 0)
  }

  /** The second result of `calendar.monthrange(y, m)`. */
  function DaysInMonth(y: int, m: int): (n: int)
    requires 1 <= m <= 12
    ensures 28 <= n <= 31
    ensures n == 29 <==> m == 2 && IsLeapYear(y)
  {
    if m == 2 then (if IsLeapYear(y) then 29 else 28)
    else if m == 4 || m == 6 || m == 9 || m == 11 then 30
    else 31
  }

  /** A month and day that exist in the given year (any year). */
  predicate InCalendar(d: Date) {
    1 <= d.month <= 12 && 1 <= d.day <= DaysInMonth(d.year, d.month)
  }

  /** What `date(y, m, d)` accepts without raising ValueError. */
  predicate IsValid(d: Date) {
    1 <= d.year <= 9999 && InCalendar(d)
  }

  lemma LeapDay(y: int)
    ensures InCalendar(Date(y, 2, 29)) <==> IsLeapYear(y)
  {
  }

  lemma ThirtyFirstOfApril(y: int)
    ensures !InCalendar(Date(y, 4, 31))
  {
  }

  /** Chronological order of dates, which is Python's comparison of `date` values. */
  predicate Before(a: Date, b: Date) {
    a.year < b.year || (a.year == b.year && (a.month < b.month || (a.month == b.month && a.day < b.day)))
  }

  lemma BeforeTransitive(a: Date, b: Date, c: Date)
    requires Before(a, b) && Before(b, c)
    ensures Before(a, c)
  {
  }

  lemma BeforeTotal(a: Date, b: Date)
    ensures a == b || Before(a, b) || Before(b, a)
  {
  }

  /** The following day. */
  function NextDay(d: Date): (r: Date)
    requires InCalendar(d)
    ensures InCalendar(r) && Before(d, r)
  {
    if d.day < DaysInMonth(d.year, d.month) then Date(d.year, d.month, d.day + 1)
    else if d.month < 12 then Date(d.year, d.month + 1, 1)
    else Date(d.year + 1, 1, 1)
  }

  /** `d + timedelta(days=k)`. */
  function AddDays(d: Date, k: nat): (r: Date)
    requires InCalendar(d)
    ensures InCalendar(r)
    ensures r.year >= d.year
    decreases k
  {
    if k == 0 then d else AddDays(NextDay(d), k - 1)
  }

  lemma {:induction false} AddDaysSplit(d: Date, a: nat, b: nat)
    requires InCalendar(d)
    ensures AddDays(d, a + b) == AddDays(AddDays(d, a), b)
    decreases a
  {
    if a > 0 {
      AddDaysSplit(NextDay(d), a - 1, b);
    }
  }

  lemma {:induction false} AddDaysLater(d: Date, k: nat)
    requires InCalendar(d) && k > 0
    ensures Before(d, AddDays(d, k))
    decreases k
  {
    if k > 1 {
      AddDaysLater(NextDay(d), k - 1);
    }
  }

  /** Adding more days gives a strictly later date, so distinct day counts give distinct dates. */
  lemma AddDaysMonotone(d: Date, a: nat, b: nat)
    requires InCalendar(d) && a < b
    ensures Before(AddDays(d, a), AddDays(d, b))
  {
    AddDaysSplit(d, a, b - a);
    AddDaysLater(AddDays(d, a), b - a);
  }

  /** Day zero of the Excel serial numbers used by the scripts. */
  const ExcelEpoch: Date := Date(1899, 12, 30)

  /**
   * `convert_excel_date(serial)` for a non-negative whole serial: the epoch plus `serial`
   * days, or `None` when the result would pass 9999-12-31 (OverflowError, caught).
   */
  function ExcelDate(serial: nat): (r: Option<Date>)
    ensures r.Some? ==> IsValid(r.value) && r.value.year >= 1899
  {
    var d := AddDays(ExcelEpoch, serial);
    if d.year <= 9999 then Some(d) else None
  }

  /** Serial 0 is the epoch, serial 2 is 1900-01-01 (1900 has no 29 February in this count). */
  lemma ExcelDateSmallSerials()
    ensures ExcelDate(0) == Some(Date(1899, 12, 30))
    ensures ExcelDate(1) == Some(Date(1899, 12, 31))
    ensures ExcelDate(2) == Some(Date(1900, 1, 1))
  {
    assert AddDays(ExcelEpoch, 1) == Date(1899, 12, 31);
    assert AddDays(ExcelEpoch, 2) == AddDays(Date(1899, 12, 31), 1);
  }

  /** Larger serials convert to strictly later dates. */
  lemma ExcelDateOrdered(a: nat, b: nat)
    requires a < b && ExcelDate(b).Some?
    ensures ExcelDate(a).Some? && Before(ExcelDate(a).value, ExcelDate(b).value)
  {
    AddDaysMonotone(ExcelEpoch, a, b);
  }
}
