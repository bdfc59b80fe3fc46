/** CashFlowService.getAllWithFilter and movementInPeriod: the reporting
    window for a granularity, the fetches it merges, and the fan-out of
    monthly entries over the months of a yearly report. */
module CashFlowReport {
  import opened Calendar
  import opened Ledger
  import opened CashFlowQuery

  // ---------------------------------------------------------------------------
  // movementInPeriod

  /** movementInPeriod on the normalised calendars: the entry's start floored to
      the first instant of its month must be strictly before the candidate, and an
      end date, when present, ceiled to the last instant of its own month, must be
      strictly after it. */
  function MovementInPeriod(periodStart: Timestamp, periodEnd: Option<Timestamp>,
                            movementDate: Timestamp): (active: bool)
    requires 0 <= periodStart.month < 12
    requires periodEnd.Some? ==> 0 <= periodEnd.value.month < 12
    ensures active ==> Before(FloorMonth(periodStart), movementDate)
    ensures active && periodEnd.Some? ==> Before(movementDate, CeilMonth(periodEnd.value))
  {
    var floored := FloorMonth(periodStart);
    if Before(floored, movementDate) then
      if periodEnd.Some? then Before(movementDate, CeilMonth(periodEnd.value)) else true
    else
      false
  }

  /** The instant 00:00:00.000 of the first day of a month. */
  predicate IsFirstInstantOfMonth(t: Timestamp) {
    t.day == 1 && t.ms == 0
  }

  /** The instant 23:59:59.999 of the last day of a month. */
  predicate IsLastInstantOfMonth(t: Timestamp)
    requires 0 <= t.month < 12
  {
    t.day == DaysInMonth(t.year, t.month) && t.ms == MsPerDay - 1
  }

  /** movementInPeriod at month granularity: a candidate is active when its month
      is after the start month, or is the start month but not its first instant;
      and, with an end date, its month is before the end month, or is the end
      month but not its last instant. */
  lemma MovementInPeriodByMonth(periodStart: Timestamp, periodEnd: Option<Timestamp>, c: Timestamp)
    requires Valid(periodStart) && Valid(c)
    requires periodEnd.Some? ==> Valid(periodEnd.value)
    ensures MovementInPeriod(periodStart, periodEnd, c) <==>
      (MonthIndex(periodStart) < MonthIndex(c)
        || (MonthIndex(periodStart) == MonthIndex(c) && !IsFirstInstantOfMonth(c)))
      && (periodEnd.None?
        || MonthIndex(c) < MonthIndex(periodEnd.value)
        || (MonthIndex(c) == MonthIndex(periodEnd.value) && !IsLastInstantOfMonth(c)))
  {
  }

  /** No candidate in a month before the start month or after the end month is active;
      an open-ended entry is active in every month after its start month. */
  lemma MovementInPeriodOutsideMonths(periodStart: Timestamp, periodEnd: Option<Timestamp>, c: Timestamp)
    requires Valid(periodStart) && Valid(c)
    requires periodEnd.Some? ==> Valid(periodEnd.value)
    ensures MonthIndex(c) < MonthIndex(periodStart) ==> !MovementInPeriod(periodStart, periodEnd, c)
    ensures periodEnd.Some? && MonthIndex(periodEnd.value) < MonthIndex(c) ==> !MovementInPeriod(periodStart, periodEnd, c)
    ensures periodEnd.None? && MonthIndex(periodStart) < MonthIndex(c) ==> MovementInPeriod(periodStart, periodEnd, c)
  {
    MovementInPeriodByMonth(periodStart, periodEnd, c);
  }

  // ---------------------------------------------------------------------------
  // Fan-out of a monthly entry over a yearly report

  /** The copy made in the month loop of getAllWithFilter's YEARLY block: the
      stored entry whose date has had its year set to y and its month to j, and
      is then resolved once when the copy's time is read. */
  function Occurrence(cf: CashFlow, y: int, j: int): (o: CashFlow)
    requires Valid(cf.date) && 0 <= j < 12
    ensures Valid(o.date) && o.date.year == y && o.date.ms == cf.date.ms
    ensures o == cf.(date := o.date)
    ensures o.date == Timestamp(y, j, cf.date.day, cf.date.ms) <==> cf.date.day <= DaysInMonth(y, j)
    ensures cf.date.day > DaysInMonth(y, j) ==>
      o.date == Timestamp(y, j + 1, cf.date.day - DaysInMonth(y, j), cf.date.ms)
    ensures cf.date.day <= 28 ==> o.date == Timestamp(y, j, cf.date.day, cf.date.ms)
  {
    cf.(date := Lenient(y, j, cf.date.day, cf.date.ms))
  }

  /** The copies emitted for months 0 .. n-1 of year y, in month order. */
  function MonthOccurrences(cf: CashFlow, y: int, n: int): seq<CashFlow>
    requires ValidEntry(cf) && 0 <= n <= 12
  {
    if n == 0 then []
    else
      var o := Occurrence(cf, y, n - 1);
      MonthOccurrences(cf, y, n - 1)
        + (if MovementInPeriod(cf.date, cf.endDate, o.date) then [o] else [])
  }

  /** The copies emitted for the `years` years starting at `from`, twelve candidate months each. */
  function YearOccurrences(cf: CashFlow, from: int, years: nat): seq<CashFlow>
    requires ValidEntry(cf)
  {
    if years == 0 then []
    else YearOccurrences(cf, from, years - 1) + MonthOccurrences(cf, from + years - 1, 12)
  }

  /** The copies emitted for every fetched monthly entry, entry by entry. */
  function FanOut(monthly: seq<CashFlow>, from: int, years: nat): seq<CashFlow>
    requires forall cf :: cf in monthly ==> ValidEntry(cf)
  {
    if monthly == [] then []
    else
      FanOut(monthly[..|monthly| - 1], from, years) + YearOccurrences(monthly[|monthly| - 1], from, years)
  }

  /** Month j of year y gets a copy of cf when movementInPeriod accepts the copy's date. */
  predicate EmitsMonth(cf: CashFlow, y: int, j: int)
    requires ValidEntry(cf) && 0 <= j < 12
  {
    MovementInPeriod(cf.date, cf.endDate, Occurrence(cf, y, j).date)
  }

  /** At most one copy per candidate month, each a copy of cf dated in year y
      that differs from cf only in its date, and exactly the accepted months. */
  lemma {:induction false} MonthOccurrencesSpec(cf: CashFlow, y: int, n: int)
    requires ValidEntry(cf) && 0 <= n <= 12
    ensures |MonthOccurrences(cf, y, n)| <= n
    ensures forall x :: x in MonthOccurrences(cf, y, n) <==>
      exists j :: 0 <= j < n && EmitsMonth(cf, y, j) && x == Occurrence(cf, y, j)
  {
    if n > 0 {
      MonthOccurrencesSpec(cf, y, n - 1);
    }
  }

  /** For a day of month that every month has (at most 28), the copies keep the
      entry's day and time, carry strictly increasing months, and month j is
      present exactly when it is accepted. */
  lemma {:induction false} MonthOccurrencesKeepDay(cf: CashFlow, y: int, n: int)
    requires ValidEntry(cf) && 0 <= n <= 12 && cf.date.day <= 28
    ensures forall i :: 0 <= i < |MonthOccurrences(cf, y, n)| ==>
      MonthOccurrences(cf, y, n)[i].date.year == y
      && MonthOccurrences(cf, y, n)[i].date.day == cf.date.day
      && MonthOccurrences(cf, y, n)[i].date.ms == cf.date.ms
      && 0 <= MonthOccurrences(cf, y, n)[i].date.month < n
    ensures forall i, k :: 0 <= i < k < |MonthOccurrences(cf, y, n)| ==>
      MonthOccurrences(cf, y, n)[i].date.month < MonthOccurrences(cf, y, n)[k].date.month
    ensures forall j :: 0 <= j < n ==>
      (Occurrence(cf, y, j) in MonthOccurrences(cf, y, n) <==> EmitsMonth(cf, y, j))
  {
    if n > 0 {
      MonthOccurrencesKeepDay(cf, y, n - 1);
      var prev := MonthOccurrences(cf, y, n - 1);
      var o := Occurrence(cf, y, n - 1);
      assert o.date.month == n - 1;
      forall j | 0 <= j < n
        ensures Occurrence(cf, y, j) in MonthOccurrences(cf, y, n) <==> EmitsMonth(cf, y, j)
      {
        if j < n - 1 {
          assert Occurrence(cf, y, j) != o by {
            assert Occurrence(cf, y, j).date.month == j;
          }
        } else {
          assert Occurrence(cf, y, j) !in prev;
        }
      }
    }
  }

  /** The fan-out over the single year y: exactly the accepted copies of the
      fetched monthly entries. */
  lemma {:induction false} FanOutMembers(monthly: seq<CashFlow>, y: int, x: CashFlow)
    requires forall cf :: cf in monthly ==> ValidEntry(cf)
    ensures x in FanOut(monthly, y, 1) <==>
      exists cf, j :: cf in monthly && 0 <= j < 12 && EmitsMonth(cf, y, j) && x == Occurrence(cf, y, j)
  {
    if monthly != [] {
      var init := monthly[..|monthly| - 1];
      var last := monthly[|monthly| - 1];
      FanOutMembers(init, y, x);
      MonthOccurrencesSpec(last, y, 12);
      assert YearOccurrences(last, y, 1) == MonthOccurrences(last, y, 12);
      assert monthly == init + [last];
      if x in FanOut(monthly, y, 1) {
        if x in FanOut(init, y, 1) {
          var cf, j :| cf in init && 0 <= j < 12 && EmitsMonth(cf, y, j) && x == Occurrence(cf, y, j);
          assert cf in monthly;
        } else {
          var j :| 0 <= j < 12 && EmitsMonth(last, y, j) && x == Occurrence(last, y, j);
          assert last in monthly;
        }
      } else {
        forall cf, j | cf in monthly && 0 <= j < 12 && EmitsMonth(cf, y, j)
          ensures x != Occurrence(cf, y, j)
        {
          if cf == last {
            assert Occurrence(cf, y, j) in MonthOccurrences(last, y, 12);
          } else {
            assert cf in init;
          }
        }
      }
    }
  }

  /** Every element of the fan-out keeps the period, type and category of the
      stored entry it was copied from. */
  lemma {:induction false} FanOutKeepsFields(monthly: seq<CashFlow>, y: int, x: CashFlow)
    requires forall cf :: cf in monthly ==> ValidEntry(cf)
    requires x in FanOut(monthly, y, 1)
    ensures exists cf :: cf in monthly && x == cf.(date := x.date)
    ensures x.date.year == y
  {
    FanOutMembers(monthly, y, x);
    var cf, j :| cf in monthly && 0 <= j < 12 && EmitsMonth(cf, y, j) && x == Occurrence(cf, y, j);
  }

  // ---------------------------------------------------------------------------
  // Reporting windows and the report

  /** The window of a ONCE report: the anchor's day, 00:00:00.000 to 23:59:59.999. */
  function DayQuery(anchor: Timestamp, p: Period, movType: Option<MovementType>, category: Option<int>): Query {
    Query(Timestamp(anchor.year, anchor.month, anchor.day, 0),
          Timestamp(anchor.year, anchor.month, anchor.day, MsPerDay - 1),
          Some(p), movType, category)
  }

  /** The window of a MONTHLY report: the first to the last day of the anchor's month. */
  function MonthQuery(anchor: Timestamp, p: Period, movType: Option<MovementType>, category: Option<int>): Query
    requires 0 <= anchor.month < 12
  {
    Query(Timestamp(anchor.year, anchor.month, 1, 0),
          Timestamp(anchor.year, anchor.month, DaysInMonth(anchor.year, anchor.month), MsPerDay - 1),
          Some(p), movType, category)
  }

  /** The window of a YEARLY report: January 1 to December 31 of the anchor's year. */
  function YearQuery(anchor: Timestamp, p: Period, movType: Option<MovementType>, category: Option<int>): Query {
    Query(Timestamp(anchor.year, 0, 1, 0), Timestamp(anchor.year, 11, 31, MsPerDay - 1),
          Some(p), movType, category)
  }

  /** The fetches a report of granularity p makes, in the order it makes them. */
  function ReportQueries(anchor: Timestamp, p: Period, movType: Option<MovementType>, category: Option<int>): seq<Query>
    requires 0 <= anchor.month < 12
  {
    match p
    case Once => [DayQuery(anchor, Once, movType, category)]
    case Monthly => [MonthQuery(anchor, Once, movType, category), MonthQuery(anchor, Monthly, movType, category)]
    case Yearly => [YearQuery(anchor, Yearly, movType, category), YearQuery(anchor, Monthly, movType, category),
                    YearQuery(anchor, Once, movType, category)]
  }

  /** What getAllWithFilter returns: the empty list without a period, None (Java
      null) when a fetch fails, else the merged fetches in the order they are made. */
  function Report(store: Store, anchor: Timestamp, period: Option<Period>,
                  movType: Option<MovementType>, category: Option<int>): Option<seq<CashFlow>>
    requires Valid(anchor) && RowsValid(store)
  {
    match period
    case None => Some([])
    case Some(Once) => Fetch(store, DayQuery(anchor, Once, movType, category))
    case Some(Monthly) =>
      var once := Fetch(store, MonthQuery(anchor, Once, movType, category));
      var monthly := Fetch(store, MonthQuery(anchor, Monthly, movType, category));
      if once.None? || monthly.None? then None else Some(once.value + monthly.value)
    case Some(Yearly) =>
      var yearly := Fetch(store, YearQuery(anchor, Yearly, movType, category));
      var monthly := Fetch(store, YearQuery(anchor, Monthly, movType, category));
      var once := Fetch(store, YearQuery(anchor, Once, movType, category));
      if yearly.None? || monthly.None? || once.None? then None
      else Some(yearly.value + FanOut(monthly.value, anchor.year, 1) + once.value)
  }

  /** The body of the YEARLY block's loop over the fetched monthly entries, for one entry: a
      copy for every candidate month of every year from firstYear to lastYear
      that movementInPeriod accepts, in year and month order. */
  method EntryOccurrences(cf: CashFlow, firstYear: int, lastYear: int) returns (occ: seq<CashFlow>)
    requires ValidEntry(cf) && firstYear <= lastYear
    ensures occ == YearOccurrences(cf, firstYear, lastYear - firstYear + 1)
  {
    occ := [];
    for y := firstYear to lastYear + 1
      invariant occ == YearOccurrences(cf, firstYear, y - firstYear)
    {
      var inYear := MonthCopies(cf, y);
      occ := occ + inYear;
    }
  }

  /** The month loop of the YEARLY block: one candidate copy per month of year
      y, kept when movementInPeriod accepts its date. Date.setYear and
      Date.setMonth only record the fields; the date is resolved when the copy's
      time is read for movementInPeriod. */
  method MonthCopies(cf: CashFlow, y: int) returns (occ: seq<CashFlow>)
    requires ValidEntry(cf)
    ensures occ == MonthOccurrences(cf, y, 12)
  {
    var periodStart := cf.date;
    var periodEnd := cf.endDate;
    occ := [];
    for j := 0 to 12
      invariant occ == MonthOccurrences(cf, y, j)
    {
      var date := cf.date;
      date := date.(year := y);
      date := date.(month := j);
      var c := cf.(date := Lenient(date.year, date.month, date.day, date.ms));
      if MovementInPeriod(periodStart, periodEnd, c.date) {
        occ := occ + [c];
      }
    }
  }

  /** The YEARLY block's loop over the fetched monthly entries: the copies of
      every entry, entry by entry. */
  method ExpandMonthly(monthly: seq<CashFlow>, firstYear: int, lastYear: int) returns (copies: seq<CashFlow>)
    requires forall cf :: cf in monthly ==> ValidEntry(cf)
    requires firstYear <= lastYear
    ensures copies == FanOut(monthly, firstYear, lastYear - firstYear + 1)
  {
    copies := [];
    for k := 0 to |monthly|
      invariant copies == FanOut(monthly[..k], firstYear, lastYear - firstYear + 1)
    {
      assert monthly[..k + 1][..k] == monthly[..k];
      assert monthly[k] in monthly;
      var occ := EntryOccurrences(monthly[k], firstYear, lastYear);
      copies := copies + occ;
    }
    assert monthly[..|monthly|] == monthly;
  }

  /** getAllWithFilter: the empty list without a period; otherwise the block
      for the requested granularity, whose first failing fetch abandons the
      whole result. */
  method GetAllWithFilter(store: Store, start: Timestamp, period: Option<Period>,
                          movType: Option<MovementType>, category: Option<int>)
    returns (r: Option<seq<CashFlow>>)
    requires Valid(start) && RowsValid(store)
    ensures r == Report(store, start, period, movType, category)
    ensures period.None? ==> r == Some([])
  {
    if period.None? {
      return Some([]);
    }
    if period.value == Once {
      r := OnceMovements(store, start, movType, category);
    }
    if period.value == Monthly {
      r := MonthlyMovements(store, start, movType, category);
    }
    if period.value == Yearly {
      r := YearlyMovements(store, start, movType, category);
    }
  }

  /** getAllWithFilter's ONCE block: the one-off entries of the anchor's day. */
  method OnceMovements(store: Store, start: Timestamp, movType: Option<MovementType>, category: Option<int>)
    returns (r: Option<seq<CashFlow>>)
    requires Valid(start) && RowsValid(store)
    ensures r == Report(store, start, Some(Once), movType, category)
  {
    var result: seq<CashFlow> := [];
    var once := GetAllFiltered(store, start, start, Some(Once), movType, category);
    OnceBranch(store, start, movType, category);
    if once.None? {
      return None;
    }
    result := result + once.value;
    assert result == once.value;
    return Some(result);
  }

  /** getAllWithFilter's MONTHLY block: the window moved to the first and last day of the anchor's
      month, then its one-off entries followed by its monthly ones. */
  method MonthlyMovements(store: Store, start: Timestamp, movType: Option<MovementType>, category: Option<int>)
    returns (r: Option<seq<CashFlow>>)
    requires Valid(start) && RowsValid(store)
    ensures r == Report(store, start, Some(Monthly), movType, category)
  {
    var result: seq<CashFlow> := [];
    var s := start.(day := 1);
    var e := start.(day := DaysInMonth(start.year, start.month));
    MonthlyBranch(store, start, s, e, movType, category);
    var once := GetAllFiltered(store, s, e, Some(Once), movType, category);
    if once.None? {
      return None;
    }
    result := result + once.value;
    var monthly := GetAllFiltered(store, s, e, Some(Monthly), movType, category);
    if monthly.None? {
      return None;
    }
    result := result + monthly.value;
    assert result == once.value + monthly.value;
    return Some(result);
  }

  /** getAllWithFilter's YEARLY block: the window moved to January 1 and December 31 of the
      anchor's year, then its yearly entries, the copies of its monthly
      entries, and its one-off entries. */
  method YearlyMovements(store: Store, start: Timestamp, movType: Option<MovementType>, category: Option<int>)
    returns (r: Option<seq<CashFlow>>)
    requires Valid(start) && RowsValid(store)
    ensures r == Report(store, start, Some(Yearly), movType, category)
  {
    var result: seq<CashFlow> := [];
    var s := start.(day := 1);
    s := s.(month := 0);
    var e := start.(month := 11);
    e := e.(day := DaysInMonth(e.year, e.month));
    YearlyBranch(store, start, s, e, movType, category);
    var yearly := GetAllFiltered(store, s, e, Some(Yearly), movType, category);
    if yearly.None? {
      return None;
    }
    result := result + yearly.value;
    assert result == yearly.value;
    var fetched := GetAllFiltered(store, s, e, Some(Monthly), movType, category);
    if fetched.None? {
      return None;
    }
    assert s.year == start.year && e.year - s.year + 1 == 1;
    var copies := ExpandMonthly(fetched.value, s.year, e.year);
    result := result + copies;
    assert result == yearly.value + copies;
    var once := GetAllFiltered(store, s, e, Some(Once), movType, category);
    if once.None? {
      return None;
    }
    result := result + once.value;
    assert result == yearly.value + copies + once.value;
    return Some(result);
  }

  /** A ONCE report is the one fetch over the anchor's day. */
  lemma OnceBranch(store: Store, start: Timestamp, movType: Option<MovementType>, category: Option<int>)
    requires Valid(start) && RowsValid(store)
    ensures NormalisedQuery(start, start, Some(Once), movType, category) == DayQuery(start, Once, movType, category)
    ensures Report(store, start, Some(Once), movType, category)
         == Fetch(store, NormalisedQuery(start, start, Some(Once), movType, category))
  {
  }

  /** With the anchor moved to the 1st and to the last day of its month, the
      MONTHLY report is the merge of the one-off and the monthly fetch. */
  lemma MonthlyBranch(store: Store, start: Timestamp, s: Timestamp, e: Timestamp,
                      movType: Option<MovementType>, category: Option<int>)
    requires Valid(start) && RowsValid(store)
    requires s == start.(day := 1) && e == start.(day := DaysInMonth(start.year, start.month))
    ensures var once := Fetch(store, NormalisedQuery(s, e, Some(Once), movType, category));
      var monthly := Fetch(store, NormalisedQuery(s, e, Some(Monthly), movType, category));
      Report(store, start, Some(Monthly), movType, category)
        == if once.None? || monthly.None? then None else Some(once.value + monthly.value)
  {
    assert NormalisedQuery(s, e, Some(Once), movType, category) == MonthQuery(start, Once, movType, category);
    assert NormalisedQuery(s, e, Some(Monthly), movType, category) == MonthQuery(start, Monthly, movType, category);
  }

  /** With the anchor moved to January 1 and to December 31 of its year, the
      YEARLY report is the yearly fetch, the fan-out of the monthly fetch over
      that single year, and the one-off fetch. */
  lemma YearlyBranch(store: Store, start: Timestamp, s: Timestamp, e: Timestamp,
                     movType: Option<MovementType>, category: Option<int>)
    requires Valid(start) && RowsValid(store)
    requires s == start.(day := 1).(month := 0)
    requires e == start.(month := 11).(day := DaysInMonth(start.year, 11))
    ensures s.year == start.year && e.year == start.year
    ensures var yearly := Fetch(store, NormalisedQuery(s, e, Some(Yearly), movType, category));
      var monthly := Fetch(store, NormalisedQuery(s, e, Some(Monthly), movType, category));
      var once := Fetch(store, NormalisedQuery(s, e, Some(Once), movType, category));
      Report(store, start, Some(Yearly), movType, category)
        == if yearly.None? || monthly.None? || once.None? then None
           else Some(yearly.value + FanOut(monthly.value, start.year, 1) + once.value)
  {
    assert NormalisedQuery(s, e, Some(Yearly), movType, category) == YearQuery(start, Yearly, movType, category);
    assert NormalisedQuery(s, e, Some(Monthly), movType, category) == YearQuery(start, Monthly, movType, category);
    assert NormalisedQuery(s, e, Some(Once), movType, category) == YearQuery(start, Once, movType, category);
  }

  // ---------------------------------------------------------------------------
  // Properties of the report

  /** The report fails exactly when one of the fetches it plans fails. */
  lemma ReportFailsIffAFetchFails(store: Store, anchor: Timestamp, period: Option<Period>,
                                  movType: Option<MovementType>, category: Option<int>)
    requires Valid(anchor) && RowsValid(store)
    ensures Report(store, anchor, period, movType, category).None? <==>
      period.Some?
      && (exists i :: 0 <= i < |ReportQueries(anchor, period.value, movType, category)|
           && ReportQueries(anchor, period.value, movType, category)[i] in store.failing)
  {
    if period.Some? {
      var qs := ReportQueries(anchor, period.value, movType, category);
      if exists i :: 0 <= i < |qs| && qs[i] in store.failing {
        var i :| 0 <= i < |qs| && qs[i] in store.failing;
        match period.value
        case Once =>
        case Monthly => assert i == 0 || i == 1;
        case Yearly => assert i == 0 || i == 1 || i == 2;
      } else {
        match period.value
        case Once => assert qs[0] !in store.failing;
        case Monthly => assert qs[0] !in store.failing && qs[1] !in store.failing;
        case Yearly => assert qs[0] !in store.failing && qs[1] !in store.failing && qs[2] !in store.failing;
      }
    }
  }

  /** Every entry of a report, fanned-out copies included, satisfies the type
      and category filters that were given. */
  lemma ReportHonoursFilters(store: Store, anchor: Timestamp, period: Option<Period>,
                             movType: Option<MovementType>, category: Option<int>)
    requires Valid(anchor) && RowsValid(store)
    requires Report(store, anchor, period, movType, category).Some?
    ensures forall x :: x in Report(store, anchor, period, movType, category).value ==>
      PassesFilters(x, movType, category)
  {
    if period == Some(Yearly) {
      var yearly := Fetch(store, YearQuery(anchor, Yearly, movType, category)).value;
      var monthly := Fetch(store, YearQuery(anchor, Monthly, movType, category)).value;
      var once := Fetch(store, YearQuery(anchor, Once, movType, category)).value;
      var copies := FanOut(monthly, anchor.year, 1);
      assert Report(store, anchor, period, movType, category).value == yearly + copies + once;
      forall x | x in copies
        ensures PassesFilters(x, movType, category)
      {
        FanOutKeepsFields(monthly, anchor.year, x);
      }
    }
  }

  /** A ONCE report holds exactly the stored one-off entries dated on the
      anchor's day that pass the filters. */
  lemma OnceReportMembers(store: Store, anchor: Timestamp, movType: Option<MovementType>,
                          category: Option<int>, x: CashFlow)
    requires Valid(anchor) && RowsValid(store)
    requires Report(store, anchor, Some(Once), movType, category).Some?
    ensures x in Report(store, anchor, Some(Once), movType, category).value <==>
      x in store.rows && x.period == Once && PassesFilters(x, movType, category)
      && x.date.year == anchor.year && x.date.month == anchor.month && x.date.day == anchor.day
  {
  }

  /** A recurring entry overlaps a month when it starts by the month's end and
      has not ended before the month's start. */
  predicate OverlapsMonth(cf: CashFlow, anchor: Timestamp) {
    MonthIndex(cf.date) <= MonthIndex(anchor)
    && (cf.endDate.None? || MonthIndex(anchor) <= MonthIndex(cf.endDate.value))
  }

  /** A recurring entry overlaps a year when it starts by the year's end and has
      not ended before the year's start. */
  predicate OverlapsYear(cf: CashFlow, y: int) {
    cf.date.year <= y && (cf.endDate.None? || y <= cf.endDate.value.year)
  }

  /** The month window of a query and the month indices of a valid row agree. */
  lemma MonthQueryMatches(anchor: Timestamp, movType: Option<MovementType>, category: Option<int>, x: CashFlow)
    requires Valid(anchor) && ValidEntry(x)
    ensures Matches(x, MonthQuery(anchor, Once, movType, category)) <==>
      PassesFilters(x, movType, category) && x.period == Once && MonthIndex(x.date) == MonthIndex(anchor)
    ensures Matches(x, MonthQuery(anchor, Monthly, movType, category)) <==>
      PassesFilters(x, movType, category) && x.period == Monthly && OverlapsMonth(x, anchor)
  {
    MonthBounds(x.date, anchor);
    if x.endDate.Some? {
      MonthBounds(x.endDate.value, anchor);
    }
  }

  /** A MONTHLY report holds the stored one-off entries dated in the anchor's
      month and the stored monthly entries overlapping that month, each passing
      the filters. */
  lemma MonthlyReportMembers(store: Store, anchor: Timestamp, movType: Option<MovementType>,
                             category: Option<int>, x: CashFlow)
    requires Valid(anchor) && RowsValid(store)
    requires Report(store, anchor, Some(Monthly), movType, category).Some?
    ensures x in Report(store, anchor, Some(Monthly), movType, category).value <==>
      x in store.rows && PassesFilters(x, movType, category)
      && ((x.period == Once && MonthIndex(x.date) == MonthIndex(anchor))
        || (x.period == Monthly && OverlapsMonth(x, anchor)))
  {
    if x in store.rows {
      MonthQueryMatches(anchor, movType, category, x);
    }
  }

  /** In a MONTHLY report every one-off entry comes before every monthly one. */
  lemma MonthlyReportOrder(store: Store, anchor: Timestamp, movType: Option<MovementType>,
                           category: Option<int>, i: int, k: int)
    requires Valid(anchor) && RowsValid(store)
    requires Report(store, anchor, Some(Monthly), movType, category).Some?
    requires 0 <= i < k < |Report(store, anchor, Some(Monthly), movType, category).value|
    requires Report(store, anchor, Some(Monthly), movType, category).value[k].period == Once
    ensures Report(store, anchor, Some(Monthly), movType, category).value[i].period == Once
  {
    var once := Filtered(store.rows, MonthQuery(anchor, Once, movType, category));
    var monthly := Filtered(store.rows, MonthQuery(anchor, Monthly, movType, category));
    var r := once + monthly;
    forall p | 0 <= p < |r|
      ensures (r[p].period == Once) == (p < |once|)
    {
      if p < |once| {
        assert r[p] == once[p] && once[p] in once;
      } else {
        assert r[p] == monthly[p - |once|] && monthly[p - |once|] in monthly;
      }
    }
  }

  /** Order of the three parts of a YEARLY report. */
  function YearlyRank(p: Period): int {
    match p
    case Yearly => 0
    case Monthly => 1
    case Once => 2
  }

  /** The year window of a query and the years of a valid row agree. */
  lemma YearQueryMatches(anchor: Timestamp, movType: Option<MovementType>, category: Option<int>, x: CashFlow)
    requires ValidEntry(x)
    ensures Matches(x, YearQuery(anchor, Yearly, movType, category)) <==>
      PassesFilters(x, movType, category) && x.period == Yearly && OverlapsYear(x, anchor.year)
    ensures Matches(x, YearQuery(anchor, Monthly, movType, category)) <==>
      PassesFilters(x, movType, category) && x.period == Monthly && OverlapsYear(x, anchor.year)
    ensures Matches(x, YearQuery(anchor, Once, movType, category)) <==>
      PassesFilters(x, movType, category) && x.period == Once && x.date.year == anchor.year
  {
  }

  /** A stored monthly entry of a YEARLY report's fetch, copied into month j of the anchor's year. */
  predicate IsYearlyCopy(store: Store, anchor: Timestamp, movType: Option<MovementType>,
                         category: Option<int>, x: CashFlow)
    requires RowsValid(store)
  {
    exists cf, j :: cf in store.rows && cf.period == Monthly && OverlapsYear(cf, anchor.year)
      && PassesFilters(cf, movType, category)
      && 0 <= j < 12 && EmitsMonth(cf, anchor.year, j) && x == Occurrence(cf, anchor.year, j)
  }

  /** A YEARLY report holds the stored yearly entries overlapping the anchor's
      year, the accepted monthly copies of the stored monthly entries
      overlapping it, and the stored one-off entries dated in it, all passing
      the filters. */
  lemma YearlyReportMembers(store: Store, anchor: Timestamp, movType: Option<MovementType>,
                            category: Option<int>, x: CashFlow)
    requires Valid(anchor) && RowsValid(store)
    requires Report(store, anchor, Some(Yearly), movType, category).Some?
    ensures x in Report(store, anchor, Some(Yearly), movType, category).value <==>
      (x in store.rows && PassesFilters(x, movType, category)
        && ((x.period == Yearly && OverlapsYear(x, anchor.year))
          || (x.period == Once && x.date.year == anchor.year)))
      || IsYearlyCopy(store, anchor, movType, category, x)
  {
    var yearly := Filtered(store.rows, YearQuery(anchor, Yearly, movType, category));
    var monthly := Filtered(store.rows, YearQuery(anchor, Monthly, movType, category));
    var once := Filtered(store.rows, YearQuery(anchor, Once, movType, category));
    assert Report(store, anchor, Some(Yearly), movType, category).value
        == yearly + FanOut(monthly, anchor.year, 1) + once;
    YearlyFanOutMembers(store, anchor, movType, category, x);
    if x in store.rows {
      YearQueryMatches(anchor, movType, category, x);
    }
  }

  /** The fan-out part of a YEARLY report is exactly the yearly copies. */
  lemma YearlyFanOutMembers(store: Store, anchor: Timestamp, movType: Option<MovementType>,
                            category: Option<int>, x: CashFlow)
    requires RowsValid(store)
    ensures x in FanOut(Filtered(store.rows, YearQuery(anchor, Monthly, movType, category)), anchor.year, 1)
        <==> IsYearlyCopy(store, anchor, movType, category, x)
  {
    var y := anchor.year;
    var monthly := Filtered(store.rows, YearQuery(anchor, Monthly, movType, category));
    FanOutMembers(monthly, y, x);
    if IsYearlyCopy(store, anchor, movType, category, x) {
      var cf, j :| cf in store.rows && cf.period == Monthly && OverlapsYear(cf, y)
        && PassesFilters(cf, movType, category)
        && 0 <= j < 12 && EmitsMonth(cf, y, j) && x == Occurrence(cf, y, j);
      YearQueryMatches(anchor, movType, category, cf);
      assert cf in monthly;
    }
    if x in FanOut(monthly, y, 1) {
      var cf, j :| cf in monthly && 0 <= j < 12 && EmitsMonth(cf, y, j) && x == Occurrence(cf, y, j);
      YearQueryMatches(anchor, movType, category, cf);
    }
  }

  /** A YEARLY report lists its yearly entries first, then the monthly copies,
      then the one-off entries. */
  lemma YearlyReportOrder(store: Store, anchor: Timestamp, movType: Option<MovementType>,
                          category: Option<int>, i: int, k: int)
    requires Valid(anchor) && RowsValid(store)
    requires Report(store, anchor, Some(Yearly), movType, category).Some?
    requires 0 <= i < k < |Report(store, anchor, Some(Yearly), movType, category).value|
    ensures YearlyRank(Report(store, anchor, Some(Yearly), movType, category).value[i].period)
         <= YearlyRank(Report(store, anchor, Some(Yearly), movType, category).value[k].period)
  {
    var yearly := Filtered(store.rows, YearQuery(anchor, Yearly, movType, category));
    var monthly := Filtered(store.rows, YearQuery(anchor, Monthly, movType, category));
    var once := Filtered(store.rows, YearQuery(anchor, Once, movType, category));
    var fan := FanOut(monthly, anchor.year, 1);
    var r := yearly + fan + once;
    forall x | x in fan
      ensures x.period == Monthly
    {
      FanOutKeepsFields(monthly, anchor.year, x);
    }
    RankInReport(yearly, fan, once, i);
    RankInReport(yearly, fan, once, k);
  }

  /** The rank of position i of yearly + fan + once is the part it falls in. */
  lemma RankInReport(yearly: seq<CashFlow>, fan: seq<CashFlow>, once: seq<CashFlow>, i: int)
    requires forall x :: x in yearly ==> x.period == Yearly
    requires forall x :: x in fan ==> x.period == Monthly
    requires forall x :: x in once ==> x.period == Once
    requires 0 <= i < |yearly + fan + once|
    ensures YearlyRank((yearly + fan + once)[i].period)
         == if i < |yearly| then 0 else if i < |yearly| + |fan| then 1 else 2
  {
    var r := yearly + fan + once;
    if i < |yearly| {
      assert r[i] == yearly[i] && yearly[i] in yearly;
    } else if i < |yearly| + |fan| {
      assert r[i] == fan[i - |yearly|] && fan[i - |yearly|] in fan;
    } else {
      assert r[i] == once[i - |yearly| - |fan|] && once[i - |yearly| - |fan|] in once;
    }
  }
}
