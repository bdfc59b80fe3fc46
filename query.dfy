/** CashFlowService.getAllFiltered: one fetch from storage, with the DAO
    replaced by an in-memory sequence of stored rows. */
module CashFlowQuery {
  import opened Calendar
  import opened Ledger

  /** The query getAllFiltered sends to storage, with its window already
      normalised to start-of-day / end-of-day. A null argument is None. */
  datatype Query = Query(
    start: Timestamp,
    end: Timestamp,
    period: Option<Period>,
    movType: Option<MovementType>,
    category: Option<int>)

  /** The storage collaborator: its rows in storage order, and the queries on
      which it raises an SQLException. */
  datatype Store = Store(rows: seq<CashFlow>, failing: set<Query>)

  predicate RowsValid(store: Store) {
    forall cf :: cf in store.rows ==> ValidEntry(cf)
  }

  /** The type and category filters, each applied only when given. */
  predicate PassesFilters(cf: CashFlow, movType: Option<MovementType>, category: Option<int>) {
    (category.None? || cf.categoryId == category.value)
    && (movType.None? || cf.movType == movType.value)
  }

  /** The date clause: BETWEEN for one-off entries; for recurring ones the
      entry starts by the window's end and has not ended before its start. */
  predicate InWindow(cf: CashFlow, q: Query) {
    if q.period == Some(Once) then
      AtMost(q.start, cf.date) && AtMost(cf.date, q.end)
    else
      AtMost(cf.date, q.end) && (cf.endDate.None? || AtMost(q.start, cf.endDate.value))
  }

  /** The conjunctive WHERE clause of getAllFiltered. */
  predicate Matches(cf: CashFlow, q: Query) {
    PassesFilters(cf, q.movType, q.category)
    && (q.period.None? || cf.period == q.period.value)
    && InWindow(cf, q)
  }

  /** The rows matching q, in storage order. */
  function Filtered(rows: seq<CashFlow>, q: Query): (r: seq<CashFlow>)
    ensures |r| <= |rows|
    ensures forall x :: x in r <==> x in rows && Matches(x, q)
  {
    if rows == [] then []
    else
      var last := rows[|rows| - 1];
      Filtered(rows[..|rows| - 1], q) + (if Matches(last, q) then [last] else [])
  }

  /** What one fetch returns: None for the SQLException, else the matching rows. */
  function Fetch(store: Store, q: Query): Option<seq<CashFlow>> {
    if q in store.failing then None else Some(Filtered(store.rows, q))
  }

  /** The query for calendars start and end after getAllFiltered has reset
      their time of day to the start and the end of the day. */
  function NormalisedQuery(start: Timestamp, end: Timestamp, period: Option<Period>,
                           movType: Option<MovementType>, category: Option<int>): (q: Query)
    ensures q.start.ms == 0 && q.end.ms == MsPerDay - 1
    ensures q.start == start.(ms := 0) && q.end == end.(ms := MsPerDay - 1)
  {
    Query(StartOfDay(start), EndOfDay(end), period, movType, category)
  }

  /** getAllFiltered: normalises the window, then collects the matching rows
      one by one into a list, or fails as a whole. */
  method GetAllFiltered(store: Store, start: Timestamp, end: Timestamp, period: Option<Period>,
                        movType: Option<MovementType>, category: Option<int>)
    returns (r: Option<seq<CashFlow>>)
    ensures r == Fetch(store, NormalisedQuery(start, end, period, movType, category))
    ensures r.None? <==> NormalisedQuery(start, end, period, movType, category) in store.failing
    ensures r.Some? ==> forall x :: x in r.value <==>
      x in store.rows && Matches(x, NormalisedQuery(start, end, period, movType, category))
  {
    var s := StartOfDay(start);
    var e := EndOfDay(end);
    var q := Query(s, e, period, movType, category);
    if q in store.failing {
      return None;
    }
    var result: seq<CashFlow> := [];
    for i := 0 to |store.rows|
      invariant result == Filtered(store.rows[..i], q)
    {
      assert store.rows[..i + 1][..i] == store.rows[..i];
      if Matches(store.rows[i], q) {
        result := result + [store.rows[i]];
      }
    }
    assert store.rows[..|store.rows|] == store.rows;
    return Some(result);
  }

  /** The result is a subsequence of the rows: storage order is kept. */
  lemma {:induction false} FilteredKeepsOrder(rows: seq<CashFlow>, q: Query, i: int, j: int)
    requires 0 <= i < j < |Filtered(rows, q)|
    ensures exists a, b :: 0 <= a < b < |rows| && rows[a] == Filtered(rows, q)[i] && rows[b] == Filtered(rows, q)[j]
  {
    var init := rows[..|rows| - 1];
    var last := rows[|rows| - 1];
    var f := Filtered(init, q);
    if j < |f| {
      FilteredKeepsOrder(init, q, i, j);
      var a, b :| 0 <= a < b < |init| && init[a] == f[i] && init[b] == f[j];
      assert rows[a] == Filtered(rows, q)[i] && rows[b] == Filtered(rows, q)[j];
    } else {
      assert Filtered(rows, q)[j] == last;
      assert f[i] in init;
      var a :| 0 <= a < |init| && init[a] == f[i];
      assert rows[a] == Filtered(rows, q)[i] && rows[|rows| - 1] == Filtered(rows, q)[j];
    }
  }

  /** Each equality filter is applied only when given: without a category, the
      category of a row does not affect whether it matches; likewise type and period. */
  lemma FiltersAppliedOnlyWhenGiven(cf: CashFlow, q: Query, c: int, t: MovementType, p: Period)
    ensures q.category.None? ==> (Matches(cf.(categoryId := c), q) <==> Matches(cf, q))
    ensures q.movType.None? ==> (Matches(cf.(movType := t), q) <==> Matches(cf, q))
    ensures q.period.None? ==> (Matches(cf.(period := p), q) <==> Matches(cf, q))
    ensures q.category.Some? && cf.categoryId != q.category.value ==> !Matches(cf, q)
    ensures q.movType.Some? && cf.movType != q.movType.value ==> !Matches(cf, q)
    ensures q.period.Some? && cf.period != q.period.value ==> !Matches(cf, q)
  {
  }
}
