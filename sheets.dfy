/**
 * A workbook sheet as the calendar scripts see it after `pandas.read_excel`: a sequence of
 * columns, each with its header text (`str(col)`) and its cells from the first data row
 * down. Cells are missing (NaN), whole numbers or text. Also the header rule shared by all
 * four scripts: a header is an Excel date serial when, after dropping ".1" (the suffix
 * pandas gives a duplicated header), it is all digits once its dots are removed.
 */
module Sheets {
  import opened Wrappers
  import opened Text
  import opened Dates

  datatype Cell = Empty | Num(n: int) | Text(s: string)

  datatype Column = Column(header: string, cells: seq<Cell>)

  datatype Sheet = Sheet(name: string, columns: seq<Column>)

  /** No sheet of the book is named "Date", the key the calendar scripts give their date column. */
  predicate NoDateSheet(book: seq<Sheet>) {
    forall i :: 0 <= i < |book| ==> book[i].name != "Date"
  }

  /** `df[col].iloc[from:]`: the cells from row `from` on (none when the column is shorter). */
  function RowsFrom(cells: seq<Cell>, from: nat): (r: seq<Cell>)
    ensures |r| == if |cells| <= from then 0 else |cells| - from
    ensures forall i :: 0 <= i < |r| ==> r[i] == cells[from + i]
  {
    if |cells| <= from then [] else cells[from..]
  }

  /** Number of rows of the data frame: pandas pads shorter columns with NaN. */
  function Height(columns: seq<Column>): (h: nat)
    ensures forall i :: 0 <= i < |columns| ==> |columns[i].cells| <= h
    ensures |columns| > 0 ==> exists i :: 0 <= i < |columns| && |columns[i].cells| == h
    decreases |columns|
  {
    if columns == [] then 0
    else
      var rest := Height(columns[1..]);
      if |columns[0].cells| >= rest then |columns[0].cells| else rest
  }

  /** The cell at row `r`, NaN past the end of a short column. */
  function CellAt(c: Column, r: nat): Cell {
    if r < |c.cells| then c.cells[r] else Empty
  }

  function DotCount(s: string): nat
    decreases |s|
  {
    if s == [] then 0 else (if s[0] == '.' then 1 else 0) + DotCount(s[1..])
  }

  /** The leading digits of a text. */
  function DigitPrefix(s: string): (r: string)
    ensures forall i :: 0 <= i < |r| ==> IsDigit(r[i])
    decreases |s|
  {
    if s != [] && IsDigit(s[0]) then [s[0]] + DigitPrefix(s[1..]) else ""
  }

  /**
   * The whole serial `int(float(col_clean))` of a header, or `None` when the header is not
   * a date column (the digit test fails) or `float` rejects it (more than one dot).
   */
  function ColumnSerial(header: string): Option<nat> {
    var cleaned := Replace(header, ".1", "");
    if !IsDigits(Replace(cleaned, ".", "")) then None
    else if DotCount(cleaned) > 1 then None
    else Some(DecimalValue(DigitPrefix(cleaned)))
  }

  /** The date a header names: its serial converted with `convert_excel_date`, when that succeeds. */
  function ColumnDate(header: string): Option<Date> {
    match ColumnSerial(header)
    case None => None
    case Some(n) => ExcelDate(n)
  }

  /** A header and the same header with pandas' duplicate suffix name the same serial. */
  lemma DuplicateHeaderSameSerial(header: string)
    ensures ColumnSerial(header + ".1") == ColumnSerial(header)
    ensures ColumnDate(header + ".1") == ColumnDate(header)
  {
    ReplaceDropsDuplicateSuffix(header);
  }

  lemma DigitsHaveNoDot(s: string, pat: string)
    requires forall i :: 0 <= i < |s| ==> IsDigit(s[i])
    requires |pat| > 0 && pat[0] == '.'
    ensures !Contains(s, pat)
  {
    NotContainsWithoutFirstChar(s, pat);
  }

  lemma {:induction false} DigitPrefixOfDigits(s: string)
    requires forall i :: 0 <= i < |s| ==> IsDigit(s[i])
    ensures DigitPrefix(s) == s
    decreases |s|
  {
    if s != [] {
      DigitPrefixOfDigits(s[1..]);
      assert [s[0]] + s[1..] == s;
    }
  }

  lemma {:induction false} DotCountOfDigits(s: string)
    requires forall i :: 0 <= i < |s| ==> IsDigit(s[i])
    ensures DotCount(s) == 0
    decreases |s|
  {
    if s != [] {
      DotCountOfDigits(s[1..]);
    }
  }

  /** A plain number header such as "45292", with or without ".1", names that serial. */
  lemma NumberHeaderSerial(n: nat)
    ensures ColumnSerial(ShowNat(n)) == Some(n)
    ensures ColumnSerial(ShowNat(n) + ".1") == Some(n)
  {
    var s := ShowNat(n);
    DigitsHaveNoDot(s, ".1");
    ReplaceAbsent(s, ".1");
    DigitsHaveNoDot(s, ".");
    ReplaceAbsent(s, ".");
    DotCountOfDigits(s);
    DigitPrefixOfDigits(s);
    ShowNatValue(n);
    DuplicateHeaderSameSerial(s);
  }

  /** A header that is not a number, such as "Total", never names a month. */
  lemma TextHeaderIgnored()
    ensures ColumnDate("Total") == None
  {
    NotContainsWithoutFirstChar("Total", ".1");
    ReplaceAbsent("Total", ".1");
    NotContainsWithoutFirstChar("Total", ".");
    ReplaceAbsent("Total", ".");
  }

  /** A column whose header names a month (of the daily scripts). */
  datatype MonthColumn = MonthColumn(month: Date, cells: seq<Cell>)

  /** `month_columns`: the date columns of a sheet in column order, with their dates. */
  function MonthColumns(columns: seq<Column>): (r: seq<MonthColumn>)
    ensures |r| <= |columns|
    ensures forall k :: 0 <= k < |r| ==> IsValid(r[k].month)
    decreases |columns|
  {
    if columns == [] then []
    else
      var rest := MonthColumns(columns[..|columns| - 1]);
      var c := columns[|columns| - 1];
      match ColumnDate(c.header)
      case None => rest
      case Some(d) => rest + [MonthColumn(d, c.cells)]
  }

  /** Exactly the columns whose header converts to a date become month columns. */
  lemma {:induction false} MonthColumnsMembers(columns: seq<Column>, mc: MonthColumn)
    ensures mc in MonthColumns(columns) <==>
      exists i :: 0 <= i < |columns| && ColumnDate(columns[i].header) == Some(mc.month) && columns[i].cells == mc.cells
    decreases |columns|
  {
    if columns != [] {
      var init := columns[..|columns| - 1];
      MonthColumnsMembers(init, mc);
      assert forall i :: 0 <= i < |init| ==> init[i] == columns[i];
    }
  }

  /** The loop that fills `month_columns`. */
  method CollectMonthColumns(columns: seq<Column>) returns (months: seq<MonthColumn>)
    ensures months == MonthColumns(columns)
  {
    months := [];
    for i := 0 to |columns|
      invariant months == MonthColumns(columns[..i])
    {
      assert columns[..i + 1][..i] == columns[..i];
      var date := ColumnDate(columns[i].header);
      if date.Some? {
        months := months + [MonthColumn(date.value, columns[i].cells)];
      }
    }
    assert columns[..|columns|] == columns;
  }
}
