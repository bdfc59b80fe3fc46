/** Worked cases of the yearly fan-out of one stored monthly entry, as the code
    of CashFlowService.getAllWithFilter computes them. */
module FanOutCases {
  import opened Calendar
  import opened Ledger
  import opened CashFlowReport

  /** An open-ended monthly expense dated `date`. */
  function MonthlyFrom(date: Timestamp): (cf: CashFlow)
    ensures cf.date == date && cf.endDate.None? && cf.period == Monthly
  {
    CashFlow(1, date, None, Monthly, Expense, 7, 10.0, "rent")
  }

  /** An entry dated 2023-03-15 10:00 yields ten copies in 2023, March through
      December: its floored start 2023-03-01 00:00:00.000 is strictly before
      March 15, so its own month is kept. */
  lemma MidMonthStartKeepsStartMonth()
    ensures var occ := MonthOccurrences(MonthlyFrom(Timestamp(2023, 2, 15, 36000000)), 2023, 12);
      |occ| == 10 && occ[0].date == Timestamp(2023, 2, 15, 36000000)
      && occ[9].date == Timestamp(2023, 11, 15, 36000000)
  {
    var cf := MonthlyFrom(Timestamp(2023, 2, 15, 36000000));
    assert !EmitsMonth(cf, 2023, 0) && !EmitsMonth(cf, 2023, 1);
    assert forall j :: 2 <= j < 12 ==> EmitsMonth(cf, 2023, j);
  }

  /** Only an entry dated on the 1st at 00:00:00.000 loses its start month: from
      2023-03-01 00:00:00.000 the copies run April through December. */
  lemma FirstInstantStartDropsStartMonth()
    ensures var occ := MonthOccurrences(MonthlyFrom(Timestamp(2023, 2, 1, 0)), 2023, 12);
      |occ| == 9 && occ[0].date == Timestamp(2023, 3, 1, 0)
  {
    var cf := MonthlyFrom(Timestamp(2023, 2, 1, 0));
    assert !EmitsMonth(cf, 2023, 0) && !EmitsMonth(cf, 2023, 1) && !EmitsMonth(cf, 2023, 2);
    assert forall j :: 3 <= j < 12 ==> EmitsMonth(cf, 2023, j);
  }

  /** An entry dated January 31: the copy for February resolves to March 3 when
      its date is read, so 2023 gets no February copy and two March copies. */
  lemma DayOverflowDoublesMarch()
    ensures var cf := MonthlyFrom(Timestamp(2023, 0, 31, 0));
      Occurrence(cf, 2023, 1).date == Timestamp(2023, 2, 3, 0)
      && Occurrence(cf, 2023, 2).date == Timestamp(2023, 2, 31, 0)
      && EmitsMonth(cf, 2023, 1) && EmitsMonth(cf, 2023, 2)
  {
  }

  /** An entry dated February 29, 2024, reported for 2025: its year and month
      are set before the date is resolved, so every copy keeps the 29th except
      the February one, which resolves to March 1. */
  lemma LeapDayEntryInCommonYear(j: int)
    requires 0 <= j < 12
    ensures Occurrence(MonthlyFrom(Timestamp(2024, 1, 29, 0)), 2025, j).date
      == if j == 1 then Timestamp(2025, 2, 1, 0) else Timestamp(2025, j, 29, 0)
  {
  }
}

/** A worked case of the report itself. */
module ReportCases {
  import opened Calendar
  import opened Ledger
  import opened CashFlowQuery
  import opened CashFlowReport

  /** A one-off entry dated June 10, 2023 appears in an unfiltered MONTHLY report
      anchored on any day of June 2023, and not in one anchored in May 2023. */
  lemma JuneEntryInJuneReportOnly(store: Store, anchor: Timestamp, x: CashFlow)
    requires RowsValid(store) && Valid(anchor) && x in store.rows
    requires x.period == Once && x.date.year == 2023 && x.date.month == 5 && x.date.day == 10
    requires Report(store, anchor, Some(Monthly), None, None).Some?
    requires anchor.year == 2023 && (anchor.month == 4 || anchor.month == 5)
    ensures x in Report(store, anchor, Some(Monthly), None, None).value <==> anchor.month == 5
  {
    MonthlyReportMembers(store, anchor, None, None, x);
  }
}
