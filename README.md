# MyWallet cashflow reports, modelled in Dafny

MyWallet is a personal-finance record keeper. Its entries ("cashflows") are one-off
(`ONCE`) or recurring (`MONTHLY`, `YEARLY`). Each entry has a movement type
(expense or income) and a category. `CashFlowService.getAllWithFilter` builds a
report from three inputs: an anchor day, a granularity, and optional type and category
filters. It works in three steps:

- It computes the reporting window: the anchor day, the anchor's calendar month, or the
  anchor's calendar year.
- It fetches the matching stored entries through `getAllFiltered`, once per period kind.
- For a yearly report, it fans every stored monthly entry out into up to twelve dated
  copies, one for each month that `movementInPeriod` accepts.

This project models those three methods and proves what they compute.

- `calendar.dfy` (module `Calendar`): instants as `Timestamp(year, month0, day, msOfDay)`,
  ordered field by field, which is proved to be the order of their millisecond counts.
  Then `DaysInMonth` with the Gregorian leap-year rule, the start/end-of-day and
  floor/ceil-of-month normalisations, and the lenient resolution of a `java.util.Date`
  whose year and month were set, which carries a day that does not exist into the
  next month.
- `ledger.dfy` (module `Ledger`): the cashflow record, `Period`, `MovementType`, and `Option`
  for a Java `null`.
- `query.dfy` (module `CashFlowQuery`): `getAllFiltered` as a method whose loop collects
  the matching rows of an in-memory store. Its conjunctive predicate has three parts:
  equality on category, type and period, each only when given; BETWEEN on `date` for
  one-off entries; and `date <= end && (endDate == null || endDate >= start)` for
  recurring ones.
- `report.dfy` (module `CashFlowReport`): `movementInPeriod`, the fan-out loops, and
  `getAllWithFilter` as a method. The method is proved equal to the specification function
  `Report`, whose properties are proved as lemmas.
- `cases.dfy` (modules `FanOutCases`, `ReportCases`): worked cases of the code as written.

The storage collaborator is a value `Store(rows, failing)`. `rows` holds the stored entries
in storage order. `failing` holds the normalised queries on which the DAO throws
`SQLException`. A report is `None`, which stands for the Java `null`, exactly when one of
the fetches it plans fails. No partial result is ever returned.

Timestamps are values, so the caller's anchor cannot be changed by the computation. The
source gets the same effect by cloning the anchor at line 157.

Behaviour of the code as written, which the model keeps:

- A monthly entry keeps its own start month unless it is dated exactly on the 1st at
  00:00:00.000. The floored start, the 1st of the month at 00:00:00.000, is strictly
  before any later instant of that month. So an entry dated 2023-03-15 gets ten copies
  in 2023, March through December (`FanOutCases.MidMonthStartKeepsStartMonth`).
  Reading the strict test as excluding the start month would give nine copies; the
  code gives ten.
- `Date.setYear` and `Date.setMonth` only record the new fields. The copy's date is
  resolved once, leniently, when its time is read, and a day the month lacks is
  carried into the next month. An entry dated January 31 has its February copy dated
  March 3, so that year gets two March copies and no February copy
  (`FanOutCases.DayOverflowDoublesMarch`).
- For the same reason, an entry dated February 29, reported for a common year, keeps
  the 29th in every month except February, whose copy resolves to March 1
  (`FanOutCases.LeapDayEntryInCommonYear`).

## Model

All source paths are in `src/es/udc/santiago/model/facade/CashFlowService.java`.

| member | source | states |
|---|---|---|
| Calendar.DaysInMonth | src/es/udc/santiago/model/facade/CashFlowService.java:172-173 | the actual maximum day of a month is 28..31; it is 29 exactly for February of a Gregorian leap year and 28 exactly for February of a common year |
| Calendar.StartOfDay | src/es/udc/santiago/model/facade/CashFlowService.java:311-315 | resetting the time gives 00:00:00.000 of the same calendar day: a well-formed instant at or before every well-formed instant of that day |
| Calendar.EndOfDay | src/es/udc/santiago/model/facade/CashFlowService.java:316-319 | setting the time gives 23:59:59.999 of the same calendar day: a well-formed instant at or after every well-formed instant of that day |
| Calendar.FloorMonth | src/es/udc/santiago/model/facade/CashFlowService.java:239-243 | the floored start is a well-formed instant in the same month, at or before the original |
| Calendar.CeilMonth | src/es/udc/santiago/model/facade/CashFlowService.java:244-251 | the ceiled end is a well-formed instant in the end's own month, at or after the original |
| Calendar.Lenient | src/es/udc/santiago/model/facade/CashFlowService.java:204-211 | resolving the date's fields when its time is read always gives a well-formed instant with the same time. The fields are kept exactly when the day exists in the month; otherwise the date moves to the next month, by the excess number of days |
| Calendar.BeforeIsMillisecondOrder | src/es/udc/santiago/model/facade/CashFlowService.java:252-253 | on well-formed instants, the field-by-field order is the order of millisecond counts that Calendar.before and Calendar.after compare, and equal counts mean equal instants |
| Calendar.MonthBounds | src/es/udc/santiago/model/facade/CashFlowService.java:325-336 | comparing a well-formed instant with the first or last instant of a month is comparing month indices |
| CashFlowQuery.Filtered | src/es/udc/santiago/model/facade/CashFlowService.java:340-343 | a fetch returns exactly the stored rows that satisfy the WHERE clause, and no more rows than are stored |
| CashFlowQuery.NormalisedQuery | src/es/udc/santiago/model/facade/CashFlowService.java:311-319 | the query window runs from the start day at 00:00:00.000 to the end day at 23:59:59.999 |
| CashFlowQuery.GetAllFiltered | src/es/udc/santiago/model/facade/CashFlowService.java:285-347 | the loop's result is the filtered rows. It fails exactly when storage fails on the normalised query; otherwise each returned row is a stored row matching the conjunctive predicate, and vice versa |
| CashFlowQuery.FilteredKeepsOrder | src/es/udc/santiago/model/facade/CashFlowService.java:340-343 | any two returned rows appear in that order among the stored rows |
| CashFlowQuery.FiltersAppliedOnlyWhenGiven | src/es/udc/santiago/model/facade/CashFlowService.java:288-309 | category, type and period equality constrain the match exactly when the argument is non-null: a missing filter ignores that field, a given one rejects a differing row |
| CashFlowReport.MovementInPeriod | src/es/udc/santiago/model/facade/CashFlowService.java:237-265 | an accepted candidate is strictly after the floored start and, with an end date, strictly before the ceiled end |
| CashFlowReport.MovementInPeriodByMonth | src/es/udc/santiago/model/facade/CashFlowService.java:237-265 | at month granularity, in both directions: a candidate is active iff its month is after the start month, or is the start month but not its first instant; and, with an end date, its month is before the end month, or is the end month but not its last instant |
| CashFlowReport.MovementInPeriodOutsideMonths | src/es/udc/santiago/model/facade/CashFlowService.java:252-264 | months before the start month or after the end month are never active; an open-ended entry is active in every month after its start month |
| CashFlowReport.Occurrence | src/es/udc/santiago/model/facade/CashFlowService.java:203-211 | a copy differs from the stored entry only in its date, which is well-formed, in the target year, at the same time. The date is (year, month j, same day) exactly when that day exists in month j; otherwise it is the excess day of month j + 1 |
| CashFlowReport.MonthOccurrencesSpec | src/es/udc/santiago/model/facade/CashFlowService.java:202-214 | the month loop emits at most one copy per candidate month, and exactly the copies that movementInPeriod accepts |
| CashFlowReport.MonthOccurrencesKeepDay | src/es/udc/santiago/model/facade/CashFlowService.java:202-214 | for a day of at most 28, every copy keeps the year, day and time, months are strictly increasing (no month twice), and month j is present iff it is accepted |
| CashFlowReport.FanOutMembers | src/es/udc/santiago/model/facade/CashFlowService.java:190-216 | the fan-out over one year consists exactly of the accepted copies Occurrence(cf, y, j) of the fetched monthly entries |
| CashFlowReport.FanOutKeepsFields | src/es/udc/santiago/model/facade/CashFlowService.java:203-207 | every fanned-out element equals some fetched entry except for its date, which lies in the report year |
| CashFlowReport.MonthCopies | src/es/udc/santiago/model/facade/CashFlowService.java:202-214 | the month loop for one entry and year builds exactly the month-ordered list of accepted copies, whose contents MonthOccurrencesSpec characterises |
| CashFlowReport.EntryOccurrences | src/es/udc/santiago/model/facade/CashFlowService.java:191-215 | the year loop for one entry appends the month lists of every year from the first to the last, in year order |
| CashFlowReport.ExpandMonthly | src/es/udc/santiago/model/facade/CashFlowService.java:190-216 | the loop over fetched monthly entries appends their copies entry by entry, which is the fan-out whose contents FanOutMembers characterises |
| CashFlowReport.GetAllWithFilter | src/es/udc/santiago/model/facade/CashFlowService.java:154-224 | the method's result is the report specification; without a period it is the empty list |
| CashFlowReport.OnceMovements | src/es/udc/santiago/model/facade/CashFlowService.java:165-167 | the ONCE block returns the one fetch over the anchor's day, or null when it fails |
| CashFlowReport.MonthlyMovements | src/es/udc/santiago/model/facade/CashFlowService.java:169-177 | the MONTHLY block returns the one-off fetch followed by the monthly fetch over the anchor's month, or null when either fails |
| CashFlowReport.YearlyMovements | src/es/udc/santiago/model/facade/CashFlowService.java:179-217 | the YEARLY block returns the yearly fetch, then the copies of the monthly fetch, then the one-off fetch over the anchor's year, or null when any fetch fails |
| CashFlowReport.OnceBranch | src/es/udc/santiago/model/facade/CashFlowService.java:163-166 | the window getAllFiltered builds from the unchanged anchor is the anchor's whole day |
| CashFlowReport.MonthlyBranch | src/es/udc/santiago/model/facade/CashFlowService.java:170-176 | setting DATE to 1 and to the actual maximum makes getAllFiltered query the anchor's whole month |
| CashFlowReport.YearlyBranch | src/es/udc/santiago/model/facade/CashFlowService.java:181-188 | setting January 1 and December 31 makes getAllFiltered query the anchor's whole year, and the month loop runs over that one year |
| CashFlowReport.ReportFailsIffAFetchFails | src/es/udc/santiago/model/facade/CashFlowService.java:219-222 | the report is null exactly when a period is given and one of the fetches it plans fails |
| CashFlowReport.ReportHonoursFilters | src/es/udc/santiago/model/facade/CashFlowService.java:289-302 | every entry of every branch, fanned-out copies included, matches the given type and category |
| CashFlowReport.OnceReportMembers | src/es/udc/santiago/model/facade/CashFlowService.java:163-166 | a ONCE report holds exactly the stored one-off entries dated on the anchor's calendar day that pass the filters |
| CashFlowReport.MonthQueryMatches | src/es/udc/santiago/model/facade/CashFlowService.java:320-336 | the month window admits one-off entries dated in the anchor's month, and monthly entries starting by that month and not ended before it |
| CashFlowReport.MonthlyReportMembers | src/es/udc/santiago/model/facade/CashFlowService.java:169-177 | a MONTHLY report holds exactly the one-off entries of the anchor's month and the monthly entries overlapping it (date <= month end, endDate absent or >= month start) that pass the filters |
| CashFlowReport.MonthlyReportOrder | src/es/udc/santiago/model/facade/CashFlowService.java:174-176 | in a MONTHLY report every one-off entry precedes every monthly entry |
| CashFlowReport.YearQueryMatches | src/es/udc/santiago/model/facade/CashFlowService.java:181-185 | the January 1 to December 31 window admits one-off entries dated in the anchor's year and recurring entries starting by that year and not ended before it |
| CashFlowReport.YearlyReportMembers | src/es/udc/santiago/model/facade/CashFlowService.java:179-217 | a YEARLY report holds exactly the overlapping yearly entries, the one-off entries of the year, and the accepted copies of the overlapping monthly entries, all passing the filters |
| CashFlowReport.YearlyFanOutMembers | src/es/udc/santiago/model/facade/CashFlowService.java:188-216 | the fan-out part of a YEARLY report is exactly the accepted copies of stored monthly entries that overlap the year and pass the filters |
| CashFlowReport.YearlyReportOrder | src/es/udc/santiago/model/facade/CashFlowService.java:186-217 | a YEARLY report lists yearly entries first, then monthly copies, then one-off entries |
| CashFlowReport.RankInReport | src/es/udc/santiago/model/facade/CashFlowService.java:186-217 | a position of the merged yearly list belongs to the part it falls in |
| FanOutCases.MidMonthStartKeepsStartMonth | src/es/udc/santiago/model/facade/CashFlowService.java:239-252 | an open monthly entry dated 2023-03-15 yields ten 2023 copies, from March 15 to December 15 |
| FanOutCases.FirstInstantStartDropsStartMonth | src/es/udc/santiago/model/facade/CashFlowService.java:239-252 | an entry dated 2023-03-01 00:00:00.000 yields nine 2023 copies, the first on April 1 |
| FanOutCases.DayOverflowDoublesMarch | src/es/udc/santiago/model/facade/CashFlowService.java:203-207 | an entry dated January 31 has its February copy dated March 3 and its March copy March 31, and both are emitted |
| FanOutCases.LeapDayEntryInCommonYear | src/es/udc/santiago/model/facade/CashFlowService.java:203-211 | an entry dated 2024-02-29 has its 2025 copies on the 29th of each month, except the February copy, which is dated March 1 |
| ReportCases.JuneEntryInJuneReportOnly | src/es/udc/santiago/model/facade/CashFlowService.java:169-177 | a one-off entry of 2023-06-10 is in an unfiltered MONTHLY report anchored in June 2023 and not in one anchored in May 2023 |

## Left out

- CRUD wrappers `add`, `get`, `getAll`, `update`, `delete`, `exists` (lines 55-134): thin pass-throughs to the ORMLite DAO and to the `ModelUtilities` converters, which are not part of this model.
- `EditCategoryActivity.java`: Android user interface with no computation.
- The ORMLite `Where` builder (lines 287-345): modelled as the conjunctive predicate it is meant to build, over an in-memory sequence. Rows come back in storage order, although SQL without ORDER BY promises no order.
- `CashFlowVO` to `CashFlow` conversion (line 342): treated as the identity. `Period.getCode()` and `MovementType.getValue()` are treated as one-to-one, so they are compared as enumeration values.
- Update in place and aliasing: `getAllFiltered` resets the time of day of its caller's calendars, and `movementInPeriod` normalises its argument calendars. Both changes are idempotent. The model computes on values, so these mutations are not captured.
- Date aliasing through `CashFlow.clone()` (lines 203-207): `CashFlow.java` is not part of this model. Each copy is built from the stored date as a fresh value.
- A null `start`: line 157 dereferences it before the null check, so the model takes `start` as a non-null instant. The `start != null` test at line 311 is always true for the callers modelled here and has no null branch in the model.
- Date setters: `Date.setYear` and `Date.setMonth` are modelled as recording fields that are resolved once, when the time is read, as `java.util.Date` in OpenJDK and in Android 7.0 and later does. A `Date` that re-resolves after every setter, as Android's libcore did before 7.0, would carry February 29 to March 1 at `setYear`; that option is not modelled.
- Time zone, locale and daylight-saving effects of `Calendar.getInstance()`, and the Julian calendar that `GregorianCalendar` uses before October 1582: instants are wall-clock fields with the Gregorian leap-year rule throughout.
- `Log` calls, and `SQLException` details beyond one failure outcome per query.
- Amount and description: carried unchanged, never interpreted; the amount is a `real`, with no floating-point behaviour.
- Idempotence of a report against unchanged storage: the report is a Dafny function of its inputs, so it holds by construction; no lemma states it.
- CashFlowReport.MonthOccurrencesKeepDay: states day and time preservation only for days up to 28; for days 29-31 the copies follow `Calendar.Lenient`, as `FanOutCases.DayOverflowDoublesMarch` shows.
