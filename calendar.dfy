/**
 * The calendar assembly the four scripts share: the union of the traders' dates
 * (`all_dates.update(...)`), `sorted(all_dates)`, and one profit column per trader in sheet
 * order whose cells are `trader_data.get(date, NaN)`. Profits are whole numbers here.
 */
module Calendar {
  import opened Wrappers
  import opened Dates

  /** One sheet's extracted data: the sheet (trader) name and its profit per date. */
  datatype Trader = Trader(name: string, data: map<Date, int>)

  /** A trader's column of the output: a profit or NaN (`None`) per calendar row. */
  datatype ProfitColumn = ProfitColumn(name: string, cells: seq<Option<int>>)

  /** The output sheet: the Date column and the traders' columns. */
  datatype Table = Table(dates: seq<Date>, columns: seq<ProfitColumn>)

  /** A column of the written sheet: the dates (as `%Y-%m-%d` texts) or a trader's profits. */
  datatype SheetColumn = DateCells(dates: seq<Date>) | ProfitCells(cells: seq<Option<int>>)

  /** A dictionary of columns as `pd.DataFrame` lays it out: its keys in insertion order. */
  type Frame = seq<(string, SheetColumn)>

  /**
   * What a script run produces: the calendar it computed and the sheet it writes, an early
   * return, or an uncaught exception.
   */
  datatype Outcome = Written(table: Table, sheet: Frame) | NoData | Crashed

  /** `trader_data.get(date, NaN)`. */
  function Lookup(data: map<Date, int>, d: Date): Option<int> {
    if d in data then Some(data[d]) else None
  }

  /** The union of the traders' dates. */
  function AllDates(traders: seq<Trader>): set<Date>
    decreases |traders|
  {
    if traders == [] then {} else AllDates(traders[..|traders| - 1]) + traders[|traders| - 1].data.Keys
  }

  lemma {:induction false} AllDatesMembers(traders: seq<Trader>, d: Date)
    ensures d in AllDates(traders) <==> exists i :: 0 <= i < |traders| && d in traders[i].data
    decreases |traders|
  {
    if traders != [] {
      var init := traders[..|traders| - 1];
      AllDatesMembers(init, d);
      if exists i :: 0 <= i < |init| && d in init[i].data {
        var i :| 0 <= i < |init| && d in init[i].data;
        assert traders[i] == init[i];
      }
      if exists i :: 0 <= i < |traders| && d in traders[i].data {
        var i :| 0 <= i < |traders| && d in traders[i].data;
        if i < |init| {
          assert init[i] == traders[i];
        }
      }
    }
  }

  /** The loop `for sheet_name in sheet_names: all_dates.update(trader_data.keys())`. */
  method CollectDates(traders: seq<Trader>) returns (dates: set<Date>)
    ensures dates == AllDates(traders)
  {
    dates := {};
    for i := 0 to |traders|
      invariant dates == AllDates(traders[..i])
    {
      assert traders[..i + 1][..i] == traders[..i];
      dates := dates + traders[i].data.Keys;
    }
    assert traders[..|traders|] == traders;
  }

  predicate StrictlyIncreasing(s: seq<Date>) {
    forall i, j :: 0 <= i < j < |s| ==> Before(s[i], s[j])
  }

  /** The earliest date of a non-empty set. */
  method Earliest(s: set<Date>) returns (m: Date)
    requires s != {}
    ensures m in s
    ensures forall d :: d in s && d != m ==> Before(m, d)
  {
    m :| m in s;
    var rest := s - {m};
    while rest != {}
      invariant rest <= s && m in s && m !in rest
      invariant forall d :: d in s && d !in rest && d != m ==> Before(m, d)
      decreases rest
    {
      var x :| x in rest;
      if Before(x, m) {
        m := x;
      } else {
        BeforeTotal(x, m);
      }
      rest := rest - {x};
    }
  }

  /** `sorted(all_dates)`: every date once, in ascending order. */
  method SortDates(s: set<Date>) returns (r: seq<Date>)
    ensures StrictlyIncreasing(r)
    ensures forall d :: d in r <==> d in s
    ensures |r| == |s|
  {
    r := [];
    var left := s;
    while left != {}
      invariant left <= s
      invariant forall d :: d in r <==> d in s && d !in left
      invariant StrictlyIncreasing(r)
      invariant forall i, d :: 0 <= i < |r| && d in left ==> Before(r[i], d)
      invariant |r| + |left| == |s|
      decreases left
    {
      var m := Earliest(left);
      r := r + [m];
      left := left - {m};
    }
  }

  /** A strictly increasing sequence holds each date once, so its length is the size of its set. */
  lemma {:induction false} IncreasingHasNoDuplicates(s: seq<Date>, i: int, j: int)
    requires StrictlyIncreasing(s) && 0 <= i < |s| && 0 <= j < |s| && i != j
    ensures s[i] != s[j]
  {
    if i < j {
      assert Before(s[i], s[j]);
    } else {
      assert Before(s[j], s[i]);
    }
  }

  predicate UniqueKeys(f: Frame) {
    forall i, j :: 0 <= i < j < |f| ==> f[i].0 != f[j].0
  }

  /** `f[name] = col`: an existing key keeps its place and takes the new column; a new key goes last. */
  function Assign(f: Frame, name: string, col: SheetColumn): Frame
    decreases |f|
  {
    if f == [] then [(name, col)]
    else if f[0].0 == name then [(name, col)] + f[1..]
    else [f[0]] + Assign(f[1..], name, col)
  }

  /** The dictionary after `f[column.name] = column.cells` for each column in turn. */
  function AssignAll(f: Frame, columns: seq<ProfitColumn>): Frame
    decreases |columns|
  {
    if columns == [] then f
    else
      var n := |columns| - 1;
      Assign(AssignAll(f, columns[..n]), columns[n].name, ProfitCells(columns[n].cells))
  }

  /** `calendar_data`: `{'Date': dates}`, then one key per trader column, in sheet order. */
  function CalendarData(table: Table): Frame {
    AssignAll([("Date", DateCells(table.dates))], table.columns)
  }

  /**
   * One dictionary store: the entries afterwards are the new one and the old ones under
   * other keys, and the first key keeps its place.
   */
  lemma {:induction false} AssignFacts(f: Frame, name: string, col: SheetColumn)
    requires UniqueKeys(f)
    ensures UniqueKeys(Assign(f, name, col))
    ensures forall e :: e in Assign(f, name, col) <==> e == (name, col) || (e in f && e.0 != name)
    ensures |Assign(f, name, col)| >= 1
    ensures |f| >= 1 ==> Assign(f, name, col)[0] == if f[0].0 == name then (name, col) else f[0]
    decreases |f|
  {
    if f != [] {
      var tail := f[1..];
      TailKeys(f);
      if f[0].0 == name {
        assert Assign(f, name, col) == [(name, col)] + tail;
      } else {
        AssignFacts(tail, name, col);
        AssignPrepend(f[0], Assign(tail, name, col));
      }
    }
  }

  /** The entries after the first of a frame with distinct keys: distinct, and under other keys. */
  lemma TailKeys(f: Frame)
    requires UniqueKeys(f) && |f| >= 1
    ensures UniqueKeys(f[1..])
    ensures forall e :: e in f <==> e == f[0] || e in f[1..]
    ensures forall e :: e in f[1..] ==> e.0 != f[0].0
  {
    var tail := f[1..];
    assert f == [f[0]] + tail;
    forall e | e in tail ensures e.0 != f[0].0 {
      var j :| 0 <= j < |tail| && tail[j] == e;
      assert f[j + 1] == e;
    }
    forall i, j | 0 <= i < j < |tail| ensures tail[i].0 != tail[j].0 {
      assert tail[i] == f[i + 1] && tail[j] == f[j + 1];
    }
  }

  /** An entry put in front of a frame with distinct keys, none of them its own. */
  lemma AssignPrepend(x: (string, SheetColumn), rest: Frame)
    requires UniqueKeys(rest) && forall e :: e in rest ==> e.0 != x.0
    ensures UniqueKeys([x] + rest)
  {
    var r := [x] + rest;
    forall i, j | 0 <= i < j < |r| ensures r[i].0 != r[j].0 {
      assert r[j] == rest[j - 1] && rest[j - 1] in rest;
      if i > 0 {
        assert r[i] == rest[i - 1];
      }
    }
  }

  /** The stores of a whole column list keep the keys distinct and the first key in its place. */
  lemma {:induction false} AssignAllKeys(f: Frame, columns: seq<ProfitColumn>)
    requires UniqueKeys(f) && |f| >= 1
    ensures UniqueKeys(AssignAll(f, columns))
    ensures |AssignAll(f, columns)| >= 1 && AssignAll(f, columns)[0].0 == f[0].0
    ensures (forall t :: 0 <= t < |columns| ==> columns[t].name != f[0].0) ==> AssignAll(f, columns)[0] == f[0]
    decreases |columns|
  {
    if columns != [] {
      var n := |columns| - 1;
      AssignAllKeys(f, columns[..n]);
      AssignFacts(AssignAll(f, columns[..n]), columns[n].name, ProfitCells(columns[n].cells));
      assert forall t :: 0 <= t < n ==> columns[..n][t] == columns[t];
    }
  }

  /** The date entries that survive the stores are those whose key no column reuses. */
  lemma {:induction false} AssignAllDates(f: Frame, columns: seq<ProfitColumn>, e: (string, SheetColumn))
    requires UniqueKeys(f) && |f| >= 1 && e.1.DateCells?
    ensures e in AssignAll(f, columns) <==> e in f && forall t :: 0 <= t < |columns| ==> columns[t].name != e.0
    decreases |columns|
  {
    if columns != [] {
      var n := |columns| - 1;
      var init := columns[..n];
      AssignAllKeys(f, init);
      AssignAllDates(f, init, e);
      AssignFacts(AssignAll(f, init), columns[n].name, ProfitCells(columns[n].cells));
      assert forall t :: 0 <= t < n ==> init[t] == columns[t];
    }
  }

  /** With distinct names, every column is present under its name after the stores. */
  lemma {:induction false} AssignAllColumns(f: Frame, columns: seq<ProfitColumn>, t: nat)
    requires UniqueKeys(f) && |f| >= 1 && DistinctNames(columns) && t < |columns|
    ensures (columns[t].name, ProfitCells(columns[t].cells)) in AssignAll(f, columns)
    decreases |columns|
  {
    var n := |columns| - 1;
    var init := columns[..n];
    var prev := AssignAll(f, init);
    var c := columns[n];
    assert AssignAll(f, columns) == Assign(prev, c.name, ProfitCells(c.cells));
    AssignAllKeys(f, init);
    AssignFacts(prev, c.name, ProfitCells(c.cells));
    if t < n {
      assert DistinctNames(init) by {
        forall i, j | 0 <= i < j < |init| ensures init[i].name != init[j].name {
          assert init[i] == columns[i] && init[j] == columns[j];
        }
      }
      AssignAllColumns(f, init, t);
      assert init[t] == columns[t];
      assert columns[t].name != c.name;
    }
  }

  /** Sheet names are distinct within a workbook. */
  predicate DistinctNames(columns: seq<ProfitColumn>) {
    forall i, j :: 0 <= i < j < |columns| ==> columns[i].name != columns[j].name
  }

  /**
   * The written sheet starts with the key "Date". It holds the dates there exactly when
   * no trader column is named "Date"; otherwise that trader's profits take the place and no
   * date column is left. With distinct names every trader column is present.
   */
  lemma DateColumnSurvives(table: Table)
    ensures |CalendarData(table)| >= 1 && CalendarData(table)[0].0 == "Date"
    ensures ("Date", DateCells(table.dates)) in CalendarData(table) <==>
      forall t :: 0 <= t < |table.columns| ==> table.columns[t].name != "Date"
    ensures (forall t :: 0 <= t < |table.columns| ==> table.columns[t].name != "Date") ==>
      CalendarData(table)[0] == ("Date", DateCells(table.dates))
    ensures forall e :: e in CalendarData(table) && e.1.DateCells? ==> e == ("Date", DateCells(table.dates))
    ensures DistinctNames(table.columns) ==>
      forall t :: 0 <= t < |table.columns| ==>
        (table.columns[t].name, ProfitCells(table.columns[t].cells)) in CalendarData(table)
  {
    var f: Frame := [("Date", DateCells(table.dates))];
    AssignAllKeys(f, table.columns);
    AssignAllDates(f, table.columns, f[0]);
    forall e | e in CalendarData(table) && e.1.DateCells? ensures e == f[0] {
      AssignAllDates(f, table.columns, e);
    }
    if DistinctNames(table.columns) {
      forall t | 0 <= t < |table.columns|
        ensures (table.columns[t].name, ProfitCells(table.columns[t].cells)) in CalendarData(table)
      {
        AssignAllColumns(f, table.columns, t);
      }
    }
  }

  /**
   * The traders' columns over the given rows, in sheet order, and the sheet the loop's
   * `calendar_data[sheet_name] = daily_profits` builds from them.
   */
  method BuildColumns(traders: seq<Trader>, dates: seq<Date>) returns (columns: seq<ProfitColumn>, sheet: Frame)
    ensures |columns| == |traders|
    ensures forall t :: 0 <= t < |traders| ==>
      columns[t].name == traders[t].name && |columns[t].cells| == |dates| &&
      forall j :: 0 <= j < |dates| ==> columns[t].cells[j] == Lookup(traders[t].data, dates[j])
    ensures sheet == CalendarData(Table(dates, columns))
  {
    columns := [];
    sheet := [("Date", DateCells(dates))];
    for t := 0 to |traders|
      invariant |columns| == t
      invariant forall u :: 0 <= u < t ==>
        columns[u].name == traders[u].name && |columns[u].cells| == |dates| &&
        forall j :: 0 <= j < |dates| ==> columns[u].cells[j] == Lookup(traders[u].data, dates[j])
      invariant sheet == AssignAll([("Date", DateCells(dates))], columns)
    {
      var profits: seq<Option<int>> := [];
      for j := 0 to |dates|
        invariant |profits| == j
        invariant forall k :: 0 <= k < j ==> profits[k] == Lookup(traders[t].data, dates[k])
      {
        profits := profits + [Lookup(traders[t].data, dates[j])];
      }
      assert (columns + [ProfitColumn(traders[t].name, profits)])[..t] == columns;
      columns := columns + [ProfitColumn(traders[t].name, profits)];
      sheet := Assign(sheet, traders[t].name, ProfitCells(profits));
    }
  }

  /** A table whose rows are `dates` and whose columns are the traders' profits on them. */
  ghost predicate Tabulates(table: Table, traders: seq<Trader>, dates: seq<Date>) {
    && table.dates == dates
    && |table.columns| == |traders|
    && forall t :: 0 <= t < |traders| ==>
         table.columns[t].name == traders[t].name && |table.columns[t].cells| == |dates| &&
         forall j :: 0 <= j < |dates| ==> table.columns[t].cells[j] == Lookup(traders[t].data, dates[j])
  }

  /** The table of all dates: each date of some trader exactly once, ascending. */
  ghost predicate IsFullCalendar(table: Table, traders: seq<Trader>) {
    && StrictlyIncreasing(table.dates)
    && (forall d :: d in table.dates <==> d in AllDates(traders))
    && Tabulates(table, traders, table.dates)
  }

  /** No trader is named "Date", so the written sheet keeps its date column. */
  predicate NoDateTrader(traders: seq<Trader>) {
    forall t :: 0 <= t < |traders| ==> traders[t].name != "Date"
  }

  /**
   * The unfiltered assembly of the daily scripts: no table when no trader has a date,
   * otherwise every date once, ascending, with each trader's profit or NaN. The sheet
   * written keeps the date column exactly when no trader is named "Date".
   */
  method AssembleCalendar(traders: seq<Trader>) returns (outcome: Outcome)
    ensures outcome.Crashed? == false
    ensures outcome.NoData? <==> AllDates(traders) == {}
    ensures outcome.Written? ==> IsFullCalendar(outcome.table, traders)
    ensures outcome.Written? ==> |outcome.table.dates| == |AllDates(traders)|
    ensures outcome.Written? ==> outcome.sheet == CalendarData(outcome.table)
    ensures outcome.Written? ==>
      (("Date", DateCells(outcome.table.dates)) in outcome.sheet <==> NoDateTrader(traders))
  {
    var all := CollectDates(traders);
    var sorted := SortDates(all);
    if |sorted| == 0 {
      return NoData;
    }
    var columns, sheet := BuildColumns(traders, sorted);
    DateColumnSurvives(Table(sorted, columns));
    outcome := Written(Table(sorted, columns), sheet);
  }
}
