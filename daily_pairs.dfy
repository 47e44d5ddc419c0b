/**
 * `extract_daily_trading_data`, the extractor shared word for word by
 * create_filtered_daily_calendar.py and create_correct_daily_calendar.py. In every month
 * column, from row 12 on, a day number 1..31 immediately followed by a number whose
 * absolute value exceeds 31 is a (day, profit) pair; the pair is recorded under that day
 * of the column's month when the date exists, later pairs overwriting earlier ones.
 */
module DailyPairs {
  import opened Wrappers
  import opened Dates
  import opened Sheets
  import opened Calendar

  /** `iloc[12:]`: the first row scanned for pairs. */
  const FirstScannedRow: nat := 12

  /** A day-number candidate: a number in [1, 31]. */
  predicate IsDayCell(c: Cell) {
    c.Num? && 1 <= c.n <= 31
  }

  /** A profit: a number whose absolute value exceeds 31. */
  predicate IsProfitCell(c: Cell) {
    c.Num? && (c.n > 31 || c.n < -31)
  }

  /** Cell `i` is a day number and cell `i + 1` a profit. */
  predicate PairAt(col: seq<Cell>, i: int) {
    0 <= i && i + 1 < |col| && IsDayCell(col[i]) && IsProfitCell(col[i + 1])
  }

  /** A pair at `i` that names an existing date of month `m` of year `y`. */
  predicate Recorded(col: seq<Cell>, y: int, m: int, i: int) {
    PairAt(col, i) && IsValid(Date(y, m, col[i].n))
  }

  /** `range(len(col_data) - 1)`: the indices the scan visits; the last cell is never a day. */
  function Slots(col: seq<Cell>): nat {
    if |col| == 0 then 0 else |col| - 1
  }

  /** The dictionary after the scan of indices `0 .. k-1` of one column, starting from `acc`. */
  function ScanPairs(acc: map<Date, int>, col: seq<Cell>, y: int, m: int, k: nat): map<Date, int>
    requires k <= |col|
    decreases k
  {
    if k == 0 then acc
    else
      var before := ScanPairs(acc, col, y, m, k - 1);
      if Recorded(col, y, m, k - 1) then before[Date(y, m, col[k - 1].n) := col[k].n] else before
  }

  /** A date is in the dictionary iff it was there before or some visited pair records it. */
  lemma {:induction false} ScanPairsKeys(acc: map<Date, int>, col: seq<Cell>, y: int, m: int, k: nat, d: Date)
    requires k <= |col|
    ensures d in ScanPairs(acc, col, y, m, k) <==>
      d in acc || exists i :: 0 <= i < k && Recorded(col, y, m, i) && Date(y, m, col[i].n) == d
    decreases k
  {
    if k > 0 {
      ScanPairsKeys(acc, col, y, m, k - 1, d);
    }
  }

  /** A date no visited pair records keeps its previous entry (or absence). */
  lemma {:induction false} ScanPairsFrame(acc: map<Date, int>, col: seq<Cell>, y: int, m: int, k: nat, d: Date)
    requires k <= |col|
    requires forall i :: 0 <= i < k && Recorded(col, y, m, i) ==> Date(y, m, col[i].n) != d
    ensures d in ScanPairs(acc, col, y, m, k) <==> d in acc
    ensures d in acc ==> ScanPairs(acc, col, y, m, k)[d] == acc[d]
    decreases k
  {
    if k > 0 {
      ScanPairsFrame(acc, col, y, m, k - 1, d);
    }
  }

  /** The last visited pair for a date wins: its profit is the recorded value. */
  lemma {:induction false} ScanPairsLastWins(acc: map<Date, int>, col: seq<Cell>, y: int, m: int, k: nat, i: nat)
    requires k <= |col| && i < k && Recorded(col, y, m, i)
    requires forall j :: i < j < k && Recorded(col, y, m, j) ==> col[j].n != col[i].n
    ensures Date(y, m, col[i].n) in ScanPairs(acc, col, y, m, k)
    ensures ScanPairs(acc, col, y, m, k)[Date(y, m, col[i].n)] == col[i + 1].n
    decreases k
  {
    if i < k - 1 {
      ScanPairsLastWins(acc, col, y, m, k - 1, i);
    }
  }

  /** Every date the scan adds is a valid date of the scanned month. */
  lemma ScanPairsAddsMonthDates(acc: map<Date, int>, col: seq<Cell>, y: int, m: int, k: nat, d: Date)
    requires k <= |col|
    requires d in ScanPairs(acc, col, y, m, k) && d !in acc
    ensures IsValid(d) && d.year == y && d.month == m && 1 <= d.day <= 31
  {
    ScanPairsKeys(acc, col, y, m, k, d);
  }

  /** A day that does not exist in the month, such as 31 April, is skipped rather than raised. */
  lemma InvalidDaySkipped()
    ensures ScanPairs(map[], [Num(5), Num(1200), Num(31), Num(-40)], 2024, 4, 3)
         == map[Date(2024, 4, 5) := 1200]
  {
    var col := [Num(5), Num(1200), Num(31), Num(-40)];
    assert !PairAt(col, 1);
    assert !IsValid(Date(2024, 4, 31));
  }

  /** The dictionary after all month columns, processed in column order. */
  function PairData(months: seq<MonthColumn>): map<Date, int>
    decreases |months|
  {
    if months == [] then map[]
    else
      var last := months[|months| - 1];
      var col := RowsFrom(last.cells, FirstScannedRow);
      ScanPairs(PairData(months[..|months| - 1]), col, last.month.year, last.month.month, Slots(col))
  }

  lemma {:induction false} PairDataValid(months: seq<MonthColumn>, d: Date)
    requires d in PairData(months)
    ensures IsValid(d)
    decreases |months|
  {
    if months != [] {
      var last := months[|months| - 1];
      var col := RowsFrom(last.cells, FirstScannedRow);
      var before := PairData(months[..|months| - 1]);
      if d in before {
        PairDataValid(months[..|months| - 1], d);
      } else {
        ScanPairsAddsMonthDates(before, col, last.month.year, last.month.month, Slots(col), d);
      }
    }
  }

  /** What `extract_daily_trading_data` returns for a sheet. */
  function DailyTradingData(sheet: Sheet): map<Date, int> {
    PairData(MonthColumns(sheet.columns))
  }

  /** Every extracted date is a real calendar date. */
  lemma DailyTradingDataValid(sheet: Sheet, d: Date)
    requires d in DailyTradingData(sheet)
    ensures IsValid(d)
  {
    PairDataValid(MonthColumns(sheet.columns), d);
  }

  /** The two loops of `extract_daily_trading_data`. */
  method ExtractDailyTradingData(sheet: Sheet) returns (data: map<Date, int>)
    ensures data == DailyTradingData(sheet)
  {
    var months := CollectMonthColumns(sheet.columns);
    data := map[];
    for k := 0 to |months|
      invariant data == PairData(months[..k])
    {
      assert months[..k + 1][..k] == months[..k];
      var year, month := months[k].month.year, months[k].month.month;
      var col := RowsFrom(months[k].cells, FirstScannedRow);
      ghost var start := data;
      var i := 0;
      while i < |col| - 1
        invariant 0 <= i <= Slots(col)
        invariant data == ScanPairs(start, col, year, month, i)
      {
        var current, next := col[i], col[i + 1];
        if current.Num? && 1 <= current.n <= 31 && next.Num? && (next.n > 31 || next.n < -31) {
          var day := Date(year, month, current.n);
          if IsValid(day) {
            data := data[day := next.n];
          }
        }
        i := i + 1;
      }
    }
    assert months[..|months|] == months;
  }

  /** Each sheet becomes a trader: its name and its extracted daily data. */
  function TradersOf(book: seq<Sheet>): (r: seq<Trader>)
    ensures |r| == |book|
    ensures forall i :: 0 <= i < |book| ==> r[i] == Trader(book[i].name, DailyTradingData(book[i]))
  {
    seq(|book|, i requires 0 <= i < |book| => Trader(book[i].name, DailyTradingData(book[i])))
  }
  /** The traders carry the sheet names, so one is named "Date" exactly when a sheet is. */
  lemma SheetNamesAreTraderNames(book: seq<Sheet>)
    ensures NoDateSheet(book) <==> NoDateTrader(TradersOf(book))
  {
  }


  /** The loop over the sheets extracting each trader's data. */
  method ExtractTraders(book: seq<Sheet>) returns (traders: seq<Trader>)
    ensures traders == TradersOf(book)
  {
    traders := [];
    for i := 0 to |book|
      invariant |traders| == i
      invariant forall k :: 0 <= k < i ==> traders[k] == Trader(book[k].name, DailyTradingData(book[k]))
    {
      var data := ExtractDailyTradingData(book[i]);
      traders := traders + [Trader(book[i].name, data)];
    }
  }
}
