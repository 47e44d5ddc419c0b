/**
 * create_filtered_daily_calendar.py: the daily calendar restricted to the dates on which
 * at least two traders (sheets) recorded a profit.
 */
module FilteredCalendar {
  import opened Dates
  import opened Sheets
  import opened Calendar
  import opened DailyPairs

  /** The number of traders holding a profit on `d`. */
  function TraderCount(traders: seq<Trader>, d: Date): nat
    decreases |traders|
  {
    if traders == [] then 0
    else TraderCount(traders[..|traders| - 1], d) + (if d in traders[|traders| - 1].data then 1 else 0)
  }

  /** A date has a trader iff it is in the union of the traders' dates. */
  lemma {:induction false} TraderCountPositive(traders: seq<Trader>, d: Date)
    ensures TraderCount(traders, d) > 0 <==> d in AllDates(traders)
    decreases |traders|
  {
    if traders != [] {
      TraderCountPositive(traders[..|traders| - 1], d);
    }
  }

  lemma {:induction false} TraderCountBound(traders: seq<Trader>, d: Date)
    ensures TraderCount(traders, d) <= |traders|
    decreases |traders|
  {
    if traders != [] {
      TraderCountBound(traders[..|traders| - 1], d);
    }
  }

  /** The inner loop `for sheet_name in sheet_names: if date_obj in ...: trading_count += 1`. */
  method CountTraders(traders: seq<Trader>, d: Date) returns (count: nat)
    ensures count == TraderCount(traders, d)
  {
    count := 0;
    for i := 0 to |traders|
      invariant count == TraderCount(traders[..i], d)
    {
      assert traders[..i + 1][..i] == traders[..i];
      if d in traders[i].data {
        count := count + 1;
      }
    }
    assert traders[..|traders|] == traders;
  }

  /** Whether a date is kept: `trading_count >= 2`. */
  predicate Kept(traders: seq<Trader>, d: Date) {
    TraderCount(traders, d) >= 2
  }

  /** The dates of `dates` that are kept, in their order. */
  function KeptDates(dates: seq<Date>, traders: seq<Trader>): seq<Date>
    decreases |dates|
  {
    if dates == [] then []
    else
      var last := dates[|dates| - 1];
      KeptDates(dates[..|dates| - 1], traders) + (if Kept(traders, last) then [last] else [])
  }

  /** The dates of `dates` that are excluded, in their order. */
  function ExcludedDates(dates: seq<Date>, traders: seq<Trader>): seq<Date>
    decreases |dates|
  {
    if dates == [] then []
    else
      var last := dates[|dates| - 1];
      ExcludedDates(dates[..|dates| - 1], traders) + (if Kept(traders, last) then [] else [last])
  }

  /** Keeping and excluding split the dates: their lengths add up. */
  lemma {:induction false} KeptExcludedPartition(dates: seq<Date>, traders: seq<Trader>)
    ensures |KeptDates(dates, traders)| + |ExcludedDates(dates, traders)| == |dates|
    decreases |dates|
  {
    if dates != [] {
      KeptExcludedPartition(dates[..|dates| - 1], traders);
    }
  }

  /** A date is in the filtered list iff it is in the input and kept. */
  lemma {:induction false} KeptDatesMembers(dates: seq<Date>, traders: seq<Trader>, d: Date)
    ensures d in KeptDates(dates, traders) <==> d in dates && Kept(traders, d)
    decreases |dates|
  {
    if dates != [] {
      var init := dates[..|dates| - 1];
      KeptDatesMembers(init, traders, d);
      assert dates == init + [dates[|dates| - 1]];
    }
  }

  lemma {:induction false} ExcludedDatesMembers(dates: seq<Date>, traders: seq<Trader>, d: Date)
    ensures d in ExcludedDates(dates, traders) <==> d in dates && !Kept(traders, d)
    decreases |dates|
  {
    if dates != [] {
      var init := dates[..|dates| - 1];
      ExcludedDatesMembers(init, traders, d);
      assert dates == init + [dates[|dates| - 1]];
    }
  }

  /** Filtering keeps the ascending order: every later kept date is after every earlier one. */
  lemma {:induction false} KeptDatesIncreasing(dates: seq<Date>, traders: seq<Trader>)
    requires StrictlyIncreasing(dates)
    ensures StrictlyIncreasing(KeptDates(dates, traders))
    decreases |dates|
  {
    if dates != [] {
      var init := dates[..|dates| - 1];
      var last := dates[|dates| - 1];
      KeptDatesIncreasing(init, traders);
      var k := KeptDates(init, traders);
      forall i | 0 <= i < |k|
        ensures Before(k[i], last)
      {
        KeptDatesMembers(init, traders, k[i]);
        var j :| 0 <= j < |init| && init[j] == k[i];
        assert Before(dates[j], dates[|dates| - 1]);
      }
    }
  }

  /** Excluding keeps the ascending order too. */
  lemma {:induction false} ExcludedDatesIncreasing(dates: seq<Date>, traders: seq<Trader>)
    requires StrictlyIncreasing(dates)
    ensures StrictlyIncreasing(ExcludedDates(dates, traders))
    decreases |dates|
  {
    if dates != [] {
      var init := dates[..|dates| - 1];
      var last := dates[|dates| - 1];
      ExcludedDatesIncreasing(init, traders);
      var k := ExcludedDates(init, traders);
      forall i | 0 <= i < |k|
        ensures Before(k[i], last)
      {
        ExcludedDatesMembers(init, traders, k[i]);
        var j :| 0 <= j < |init| && init[j] == k[i];
        assert Before(dates[j], dates[|dates| - 1]);
      }
    }
  }

  /** A sequence without repeats has as many elements as its set. */
  lemma {:induction false} IncreasingCardinality(s: seq<Date>)
    requires StrictlyIncreasing(s)
    ensures |set d | d in s| == |s|
    decreases |s|
  {
    if s != [] {
      var init := s[..|s| - 1];
      var last := s[|s| - 1];
      IncreasingCardinality(init);
      assert (set d | d in s) == (set d | d in init) + {last};
      assert last !in init;
    }
  }

  /** The excluded dates of the union: those fewer than two traders recorded. */
  ghost function ExcludedSet(traders: seq<Trader>): set<Date> {
    set d | d in AllDates(traders) && !Kept(traders, d)
  }

  /**
   * The printed count `len(sorted_dates) - len(valid_dates)` is the number of union dates
   * that fewer than two traders recorded.
   */
  lemma ExcludedCount(sorted: seq<Date>, traders: seq<Trader>)
    requires StrictlyIncreasing(sorted)
    requires forall d :: d in sorted <==> d in AllDates(traders)
    requires |sorted| == |AllDates(traders)|
    ensures |sorted| - |KeptDates(sorted, traders)| == |ExcludedSet(traders)|
  {
    KeptExcludedPartition(sorted, traders);
    var ex := ExcludedDates(sorted, traders);
    ExcludedDatesIncreasing(sorted, traders);
    IncreasingCardinality(ex);
    forall d
      ensures d in ex <==> d in ExcludedSet(traders)
    {
      ExcludedDatesMembers(sorted, traders, d);
    }
    assert (set d | d in ex) == ExcludedSet(traders);
  }

  /** The filtered rows of the sorted union: ascending, exactly the kept dates, and the excluded count. */
  lemma KeptDatesFacts(sorted: seq<Date>, traders: seq<Trader>)
    requires StrictlyIncreasing(sorted)
    requires forall d :: d in sorted <==> d in AllDates(traders)
    requires |sorted| == |AllDates(traders)|
    ensures StrictlyIncreasing(KeptDates(sorted, traders))
    ensures forall d :: d in KeptDates(sorted, traders) <==> d in AllDates(traders) && Kept(traders, d)
    ensures |sorted| - |KeptDates(sorted, traders)| == |ExcludedSet(traders)|
  {
    KeptDatesIncreasing(sorted, traders);
    forall d
      ensures d in KeptDates(sorted, traders) <==> d in AllDates(traders) && Kept(traders, d)
    {
      KeptDatesMembers(sorted, traders, d);
    }
    ExcludedCount(sorted, traders);
  }

  /** The loop building `valid_dates`. */
  method FilterDates(sorted: seq<Date>, traders: seq<Trader>) returns (valid: seq<Date>)
    ensures valid == KeptDates(sorted, traders)
  {
    valid := [];
    for i := 0 to |sorted|
      invariant valid == KeptDates(sorted[..i], traders)
    {
      assert sorted[..i + 1][..i] == sorted[..i];
      var count := CountTraders(traders, sorted[i]);
      if count >= 2 {
        valid := valid + [sorted[i]];
      }
    }
    assert sorted[..|sorted|] == sorted;
  }

  /** The filtered table: the kept dates, ascending, with each trader's profit or NaN. */
  ghost predicate IsFilteredCalendar(table: Table, traders: seq<Trader>) {
    && StrictlyIncreasing(table.dates)
    && (forall d :: d in table.dates <==> d in AllDates(traders) && Kept(traders, d))
    && Tabulates(table, traders, table.dates)
  }

  /**
   * `create_filtered_daily_calendar`: no table when no sheet has a date; otherwise exactly
   * the dates at least two traders recorded (possibly none), with the excluded dates those
   * of the union that fewer than two recorded.
   */
  method CreateFilteredDailyCalendar(book: seq<Sheet>) returns (outcome: Outcome)
    ensures outcome.Crashed? == false
    ensures outcome.NoData? <==> AllDates(TradersOf(book)) == {}
    ensures outcome.Written? ==> IsFilteredCalendar(outcome.table, TradersOf(book))
    ensures outcome.Written? ==>
      |AllDates(TradersOf(book))| - |outcome.table.dates| == |ExcludedSet(TradersOf(book))|
    ensures outcome.Written? ==> outcome.sheet == CalendarData(outcome.table)
    ensures outcome.Written? ==> (("Date", DateCells(outcome.table.dates)) in outcome.sheet <==> NoDateSheet(book))
  {
    var traders := ExtractTraders(book);
    var all := CollectDates(traders);
    var sorted := SortDates(all);
    if |sorted| == 0 {
      return NoData;
    }
    var valid := FilterDates(sorted, traders);
    KeptDatesFacts(sorted, traders);
    var columns, sheet := BuildColumns(traders, valid);
    assert Tabulates(Table(valid, columns), traders, valid);
    DateColumnSurvives(Table(valid, columns));
    SheetNamesAreTraderNames(book);
    assert NoDateSheet(book) <==> forall t :: 0 <= t < |columns| ==> columns[t].name != "Date";
    outcome := Written(Table(valid, columns), sheet);
  }

  /** Two traders on one day keep it; one alone does not. */
  lemma KeepsSharedDays(d: Date, p: int, q: int)
    ensures Kept([Trader("A", map[d := p]), Trader("B", map[d := q])], d)
    ensures !Kept([Trader("A", map[d := p]), Trader("B", map[])], d)
  {
    var two := [Trader("A", map[d := p]), Trader("B", map[d := q])];
    assert two[..1][..0] == [];
    var one := [Trader("A", map[d := p]), Trader("B", map[])];
    assert one[..1][..0] == [];
    assert TraderCount(one[..1], d) == 1;
    assert TraderCount(one, d) == 1;
  }
}
