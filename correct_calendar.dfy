/**
 * create_correct_daily_calendar.py: the unfiltered daily calendar over the (day, profit)
 * pairs of every sheet.
 */
module CorrectCalendar {
  import opened Sheets
  import opened Calendar
  import opened DailyPairs
  import FilteredCalendar

  /**
   * `create_correct_daily_calendar`: no table when no sheet has a date, otherwise every
   * extracted date once, ascending, with each trader's profit or NaN.
   */
  method CreateCorrectDailyCalendar(book: seq<Sheet>) returns (outcome: Outcome)
    ensures outcome.Crashed? == false
    ensures outcome.NoData? <==> AllDates(TradersOf(book)) == {}
    ensures outcome.Written? ==> IsFullCalendar(outcome.table, TradersOf(book))
    ensures outcome.Written? ==> |outcome.table.dates| == |AllDates(TradersOf(book))|
    ensures outcome.Written? ==> outcome.sheet == CalendarData(outcome.table)
    ensures outcome.Written? ==> (("Date", DateCells(outcome.table.dates)) in outcome.sheet <==> NoDateSheet(book))
  {
    var traders := ExtractTraders(book);
    outcome := AssembleCalendar(traders);
    DailyPairs.SheetNamesAreTraderNames(book);
  }

  /** Over the same workbook, the filtered calendar's rows are among the unfiltered one's. */
  lemma FilteredRowsAreFullRows(full: Table, filtered: Table, book: seq<Sheet>)
    requires IsFullCalendar(full, TradersOf(book))
    requires FilteredCalendar.IsFilteredCalendar(filtered, TradersOf(book))
    ensures forall d :: d in filtered.dates ==> d in full.dates
    ensures |filtered.dates| <= |full.dates|
  {
    FilteredCalendar.IncreasingCardinality(filtered.dates);
    FilteredCalendar.IncreasingCardinality(full.dates);
    SubsetSmaller(set d | d in filtered.dates, set d | d in full.dates);
  }

  lemma {:induction false} SubsetSmaller<T>(a: set<T>, b: set<T>)
    requires a <= b
    ensures |a| <= |b|
    decreases a
  {
    if a != {} {
      var x :| x in a;
      SubsetSmaller(a - {x}, b - {x});
    }
  }
}
