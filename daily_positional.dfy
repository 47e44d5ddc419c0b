/**
 * create_daily_calendar.py: the positional extractor and its calendar. In every month column
 * the numbers from row 13 on (blank and text cells dropped) are taken as the profits of days
 * 1, 2, 3, ... of the column's month, as many as the month has days or there are numbers.
 */
module DailyPositional {
  import opened Dates
  import opened Sheets
  import opened Calendar

  /** `iloc[13:]`: the first row read as a daily value. */
  const FirstDailyRow: nat := 13

  /** `dropna()` and the `isinstance(val, (int, float))` filter: the numbers, in order. */
  function Numerics(cells: seq<Cell>): (r: seq<int>)
    ensures |r| <= |cells|
    decreases |cells|
  {
    if cells == [] then []
    else
      var last := cells[|cells| - 1];
      Numerics(cells[..|cells| - 1]) + (if last.Num? then [last.n] else [])
  }

  /** Every number of the column survives the filter, and nothing else does. */
  lemma {:induction false} NumericsMembers(cells: seq<Cell>, n: int)
    ensures n in Numerics(cells) <==> Num(n) in cells
    decreases |cells|
  {
    if cells != [] {
      var init := cells[..|cells| - 1];
      NumericsMembers(init, n);
      assert cells == init + [cells[|cells| - 1]];
    }
  }

  /** The number of days assigned: `min(days_in_month, len(daily_profits))`. */
  function DayCount(y: int, m: int, values: seq<int>): (n: nat)
    requires 1 <= m <= 12
    ensures n <= |values| && n <= DaysInMonth(y, m)
    ensures n == |values| || n == DaysInMonth(y, m)
  {
    if DaysInMonth(y, m) < |values| then DaysInMonth(y, m) else |values|
  }

  /** Days 1 .. k of month `m` of year `y` assigned the first k values, over `acc`. */
  function AssignDays(acc: map<Date, int>, y: int, m: int, values: seq<int>, k: nat): map<Date, int>
    requires k <= |values|
    decreases k
  {
    if k == 0 then acc else AssignDays(acc, y, m, values, k - 1)[Date(y, m, k) := values[k - 1]]
  }

  /** Day `day` of the month holds the `day`-th value. */
  lemma {:induction false} AssignDaysValue(acc: map<Date, int>, y: int, m: int, values: seq<int>, k: nat, day: int)
    requires k <= |values| && 1 <= day <= k
    ensures Date(y, m, day) in AssignDays(acc, y, m, values, k)
    ensures AssignDays(acc, y, m, values, k)[Date(y, m, day)] == values[day - 1]
    decreases k
  {
    if day < k {
      AssignDaysValue(acc, y, m, values, k - 1, day);
    }
  }

  /** Dates outside days 1 .. k of the month are left as they were. */
  lemma {:induction false} AssignDaysFrame(acc: map<Date, int>, y: int, m: int, values: seq<int>, k: nat, d: Date)
    requires k <= |values|
    requires !(d.year == y && d.month == m && 1 <= d.day <= k)
    ensures d in AssignDays(acc, y, m, values, k) <==> d in acc
    ensures d in acc ==> AssignDays(acc, y, m, values, k)[d] == acc[d]
    decreases k
  {
    if k > 0 {
      AssignDaysFrame(acc, y, m, values, k - 1, d);
    }
  }

  /** One month column's contribution over `acc`. */
  function MonthData(acc: map<Date, int>, mc: MonthColumn): map<Date, int>
    requires 1 <= mc.month.month <= 12
  {
    var values := Numerics(RowsFrom(mc.cells, FirstDailyRow));
    AssignDays(acc, mc.month.year, mc.month.month, values, DayCount(mc.month.year, mc.month.month, values))
  }

  /** What `extract_daily_data_from_sheet` builds from the month columns, in column order. */
  function PositionalData(months: seq<MonthColumn>): map<Date, int>
    requires forall i :: 0 <= i < |months| ==> IsValid(months[i].month)
    decreases |months|
  {
    if months == [] then map[]
    else
      var last := months[|months| - 1];
      assert IsValid(last.month);
      MonthData(PositionalData(months[..|months| - 1]), last)
  }

  /** Every assigned date exists: the day never passes the month's length. */
  lemma {:induction false} PositionalDataValid(months: seq<MonthColumn>, d: Date)
    requires forall i :: 0 <= i < |months| ==> IsValid(months[i].month)
    requires d in PositionalData(months)
    ensures IsValid(d)
    decreases |months|
  {
    if months != [] {
      var init := months[..|months| - 1];
      var mc := months[|months| - 1];
      var values := Numerics(RowsFrom(mc.cells, FirstDailyRow));
      var k := DayCount(mc.month.year, mc.month.month, values);
      if d.year == mc.month.year && d.month == mc.month.month && 1 <= d.day <= k {
        assert IsValid(mc.month);
      } else {
        AssignDaysFrame(PositionalData(init), mc.month.year, mc.month.month, values, k, d);
        PositionalDataValid(init, d);
      }
    }
  }

  /** The last column of a month decides it: its i-th number is the profit of day i. */
  lemma LastMonthColumnWins(months: seq<MonthColumn>, day: int)
    requires forall i :: 0 <= i < |months| ==> IsValid(months[i].month)
    requires months != []
    requires IsValid(months[|months| - 1].month)
    requires 1 <= day <= |Numerics(RowsFrom(months[|months| - 1].cells, FirstDailyRow))|
    requires day <= DaysInMonth(months[|months| - 1].month.year, months[|months| - 1].month.month)
    ensures
      var mc := months[|months| - 1];
      var values := Numerics(RowsFrom(mc.cells, FirstDailyRow));
      && Date(mc.month.year, mc.month.month, day) in PositionalData(months)
      && PositionalData(months)[Date(mc.month.year, mc.month.month, day)] == values[day - 1]
  {
    var mc := months[|months| - 1];
    var values := Numerics(RowsFrom(mc.cells, FirstDailyRow));
    AssignDaysValue(PositionalData(months[..|months| - 1]), mc.month.year, mc.month.month, values,
      DayCount(mc.month.year, mc.month.month, values), day);
  }

  /** What `extract_daily_data_from_sheet` returns for a sheet. */
  function DailyData(sheet: Sheet): map<Date, int> {
    PositionalData(MonthColumns(sheet.columns))
  }

  /** The loop `for val in col_data: if isinstance(val, (int, float)) ...: append(val)`. */
  method CollectNumerics(column: seq<Cell>) returns (profits: seq<int>)
    ensures profits == Numerics(column)
  {
    profits := [];
    for i := 0 to |column|
      invariant profits == Numerics(column[..i])
    {
      assert column[..i + 1][..i] == column[..i];
      if column[i].Num? {
        profits := profits + [column[i].n];
      }
    }
    assert column[..|column|] == column;
  }

  /** One month column: its numbers assigned to days 1, 2, ... of the month. */
  method AssignMonth(acc: map<Date, int>, mc: MonthColumn) returns (data: map<Date, int>)
    requires IsValid(mc.month)
    ensures data == MonthData(acc, mc)
  {
    var year, month := mc.month.year, mc.month.month;
    var profits := CollectNumerics(RowsFrom(mc.cells, FirstDailyRow));
    var days := DaysInMonth(year, month);
    data := acc;
    var day := 1;
    while day < if days + 1 < |profits| + 1 then days + 1 else |profits| + 1
      invariant 1 <= day <= DayCount(year, month, profits) + 1
      invariant data == AssignDays(acc, year, month, profits, day - 1)
    {
      if day - 1 < |profits| {
        data := data[Date(year, month, day) := profits[day - 1]];
      }
      day := day + 1;
    }
  }

  /** The loop over the month columns of `extract_daily_data_from_sheet`. */
  method ExtractDailyDataFromSheet(sheet: Sheet) returns (data: map<Date, int>)
    ensures data == DailyData(sheet)
  {
    var months := CollectMonthColumns(sheet.columns);
    data := map[];
    for k := 0 to |months|
      invariant data == PositionalData(months[..k])
    {
      assert months[..k + 1][..k] == months[..k];
      assert IsValid(months[k].month);
      data := AssignMonth(data, months[k]);
    }
    assert months[..|months|] == months;
  }

  function TradersOf(book: seq<Sheet>): (r: seq<Trader>)
    ensures |r| == |book|
    ensures forall i :: 0 <= i < |book| ==> r[i] == Trader(book[i].name, DailyData(book[i]))
  {
    seq(|book|, i requires 0 <= i < |book| => Trader(book[i].name, DailyData(book[i])))
  }
  /** The traders carry the sheet names, so one is named "Date" exactly when a sheet is. */
  lemma SheetNamesAreTraderNames(book: seq<Sheet>)
    ensures NoDateSheet(book) <==> NoDateTrader(TradersOf(book))
  {
  }


  method ExtractTraders(book: seq<Sheet>) returns (traders: seq<Trader>)
    ensures traders == TradersOf(book)
  {
    traders := [];
    for i := 0 to |book|
      invariant |traders| == i
      invariant forall k :: 0 <= k < i ==> traders[k] == Trader(book[k].name, DailyData(book[k]))
    {
      var data := ExtractDailyDataFromSheet(book[i]);
      traders := traders + [Trader(book[i].name, data)];
    }
  }

  /** `create_daily_calendar_sheet`: the unfiltered calendar over the positional data. */
  method CreateDailyCalendarSheet(book: seq<Sheet>) returns (outcome: Outcome)
    ensures outcome.Crashed? == false
    ensures outcome.NoData? <==> AllDates(TradersOf(book)) == {}
    ensures outcome.Written? ==> IsFullCalendar(outcome.table, TradersOf(book))
    ensures outcome.Written? ==> |outcome.table.dates| == |AllDates(TradersOf(book))|
    ensures outcome.Written? ==> outcome.sheet == CalendarData(outcome.table)
    ensures outcome.Written? ==> (("Date", DateCells(outcome.table.dates)) in outcome.sheet <==> NoDateSheet(book))
  {
    var traders := ExtractTraders(book);
    outcome := AssembleCalendar(traders);
    SheetNamesAreTraderNames(book);
  }
}
