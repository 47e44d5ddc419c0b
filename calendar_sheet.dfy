/**
 * create_calendar_sheet.py: the first calendar script. Each date column contributes the
 * number in its row 2 under the header's own date; the script reads row 2 before any
 * error handling and indexes the first sorted date without checking for an empty union.
 */
module CalendarSheet {
  import opened Wrappers
  import opened Dates
  import opened Sheets
  import opened Calendar

  /** `df.iloc[2]`: the row holding each column's profit. */
  const ProfitRow: nat := 2

  /** One column's entry: its header's date and a number in the profit row. */
  predicate Contributes(c: Column) {
    ColumnDate(c.header).Some? && CellAt(c, ProfitRow).Num?
  }

  /** The loop over the columns, later columns overwriting earlier ones with the same date. */
  function RowData(columns: seq<Column>): map<Date, int>
    decreases |columns|
  {
    if columns == [] then map[]
    else
      var before := RowData(columns[..|columns| - 1]);
      var c := columns[|columns| - 1];
      if Contributes(c) then before[ColumnDate(c.header).value := CellAt(c, ProfitRow).n] else before
  }

  /** A date is recorded iff some contributing column's header names it. */
  lemma {:induction false} RowDataKeys(columns: seq<Column>, d: Date)
    ensures d in RowData(columns) <==>
      exists i :: 0 <= i < |columns| && Contributes(columns[i]) && ColumnDate(columns[i].header) == Some(d)
    decreases |columns|
  {
    if columns != [] {
      var init := columns[..|columns| - 1];
      RowDataKeys(init, d);
      assert forall i :: 0 <= i < |init| ==> init[i] == columns[i];
    }
  }

  /** The last contributing column of a date decides its profit. */
  lemma {:induction false} RowDataLastWins(columns: seq<Column>, i: nat)
    requires i < |columns| && Contributes(columns[i])
    requires forall j :: i < j < |columns| && Contributes(columns[j]) ==>
      ColumnDate(columns[j].header) != ColumnDate(columns[i].header)
    ensures ColumnDate(columns[i].header).value in RowData(columns)
    ensures RowData(columns)[ColumnDate(columns[i].header).value] == CellAt(columns[i], ProfitRow).n
    decreases |columns|
  {
    if i < |columns| - 1 {
      var init := columns[..|columns| - 1];
      assert init[i] == columns[i];
      forall j | i < j < |init| && Contributes(init[j])
        ensures ColumnDate(init[j].header) != ColumnDate(init[i].header)
      {
        assert init[j] == columns[j];
      }
      RowDataLastWins(init, i);
    }
  }

  /** Every recorded date is a real date. */
  lemma {:induction false} RowDataValid(columns: seq<Column>, d: Date)
    requires d in RowData(columns)
    ensures IsValid(d)
    decreases |columns|
  {
    if columns != [] {
      var init := columns[..|columns| - 1];
      var c := columns[|columns| - 1];
      if d in RowData(init) {
        RowDataValid(init, d);
      } else {
        var n := ColumnSerial(c.header).value;
        assert ExcelDate(n) == Some(d);
      }
    }
  }

  /** `extract_trader_data`: `None` when the sheet has no row 2 and `df.iloc[2]` raises. */
  function TraderData(sheet: Sheet): (r: Option<map<Date, int>>)
    ensures r.None? <==> Height(sheet.columns) <= ProfitRow
  {
    if Height(sheet.columns) <= ProfitRow then None else Some(RowData(sheet.columns))
  }

  /** The loops of `extract_trader_data`. */
  method ExtractTraderData(sheet: Sheet) returns (r: Option<map<Date, int>>)
    ensures r == TraderData(sheet)
  {
    var height := 0;
    for i := 0 to |sheet.columns|
      invariant forall k :: 0 <= k < i ==> |sheet.columns[k].cells| <= height
      invariant height == 0 || exists k :: 0 <= k < i && |sheet.columns[k].cells| == height
    {
      if |sheet.columns[i].cells| > height {
        height := |sheet.columns[i].cells|;
      }
    }
    if height <= ProfitRow {
      assert Height(sheet.columns) <= ProfitRow by {
        if |sheet.columns| > 0 {
          var k :| 0 <= k < |sheet.columns| && |sheet.columns[k].cells| == Height(sheet.columns);
        }
      }
      return None;
    }
    var data: map<Date, int> := map[];
    var columns := sheet.columns;
    for i := 0 to |columns|
      invariant data == RowData(columns[..i])
    {
      assert columns[..i + 1][..i] == columns[..i];
      var date := ColumnDate(columns[i].header);
      var profit := CellAt(columns[i], ProfitRow);
      if date.Some? && profit.Num? {
        data := data[date.value := profit.n];
      }
    }
    assert columns[..|columns|] == columns;
    r := Some(data);
  }

  /** The traders of the book, or `None` when some sheet's extraction raises. */
  function TradersOf(book: seq<Sheet>): (r: Option<seq<Trader>>)
    ensures r.None? <==> exists i :: 0 <= i < |book| && TraderData(book[i]).None?
    ensures r.Some? ==> |r.value| == |book|
    ensures r.Some? ==>
      forall i :: 0 <= i < |book| ==> r.value[i] == Trader(book[i].name, TraderData(book[i]).value)
    decreases |book|
  {
    if book == [] then Some([])
    else
      assert forall i :: 0 <= i < |book| - 1 ==> book[..|book| - 1][i] == book[i];
      var init := TradersOf(book[..|book| - 1]);
      var last := book[|book| - 1];
      if init.None? then
        var i :| 0 <= i < |book| - 1 && TraderData(book[..|book| - 1][i]).None?;
        assert book[i] == book[..|book| - 1][i];
        None
      else if TraderData(last).None? then None
      else Some(init.value + [Trader(last.name, TraderData(last).value)])
  }

  /** The loop over the sheets; an exception in any extraction ends the script. */
  method ExtractTraders(book: seq<Sheet>) returns (r: Option<seq<Trader>>)
    ensures r == TradersOf(book)
  {
    var traders: seq<Trader> := [];
    for i := 0 to |book|
      invariant TradersOf(book[..i]) == Some(traders)
    {
      assert book[..i + 1][..i] == book[..i];
      var data := ExtractTraderData(book[i]);
      if data.None? {
        assert TradersOf(book[..i + 1]).None?;
        ExtractionFailurePersists(book, i + 1);
        return None;
      }
      traders := traders + [Trader(book[i].name, data.value)];
    }
    assert book[..|book|] == book;
    r := Some(traders);
  }

  /** Once a prefix of the book fails, the whole book fails. */
  lemma ExtractionFailurePersists(book: seq<Sheet>, n: nat)
    requires n <= |book| && TradersOf(book[..n]).None?
    ensures TradersOf(book).None?
  {
    var i :| 0 <= i < n && TraderData(book[..n][i]).None?;
    assert book[..n][i] == book[i];
  }

  /**
   * `create_calendar_sheet`: an uncaught exception when some sheet has fewer than three
   * rows, when no date was found (`sorted_dates[0]`), or when a sheet named "Date" has put
   * its profits in the date column (`.dt.strftime` on numbers); otherwise every date once,
   * ascending, with each trader's profit or NaN, after the date column. It never returns
   * without a table.
   */
  method CreateCalendarSheet(book: seq<Sheet>) returns (outcome: Outcome)
    ensures outcome.NoData? == false
    ensures outcome.Crashed? <==>
      TradersOf(book).None? || AllDates(TradersOf(book).value) == {} || !NoDateSheet(book)
    ensures outcome.Written? ==> IsFullCalendar(outcome.table, TradersOf(book).value)
    ensures outcome.Written? ==> |outcome.table.dates| == |AllDates(TradersOf(book).value)|
    ensures outcome.Written? ==>
      outcome.sheet == CalendarData(outcome.table) && outcome.sheet[0] == ("Date", DateCells(outcome.table.dates))
  {
    var traders := ExtractTraders(book);
    if traders.None? {
      return Crashed;
    }
    var assembled := AssembleCalendar(traders.value);
    if assembled.NoData? {
      return Crashed;
    }
    DateColumnSurvives(assembled.table);
    SheetNamesAreTraderNames(book);
    if !assembled.sheet[0].1.DateCells? {
      return Crashed;
    }
    outcome := assembled;
  }

  /** The traders carry the sheet names, so one is named "Date" exactly when a sheet is. */
  lemma SheetNamesAreTraderNames(book: seq<Sheet>)
    requires TradersOf(book).Some?
    ensures NoDateSheet(book) <==> NoDateTrader(TradersOf(book).value)
  {
  }

  /** A sheet of two data rows ends the script, whatever its headers say. */
  lemma ShortSheetCrashes(name: string, header: string, a: Cell, b: Cell)
    ensures TraderData(Sheet(name, [Column(header, [a, b])])).None?
  {
    var cols := [Column(header, [a, b])];
    assert Height(cols[1..]) == 0;
  }
}
