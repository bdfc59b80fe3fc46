/** The ledger entry ("cashflow") that CashFlowService stores and reports. */
module Ledger {
  import opened Calendar

  /** A Java reference that may be null. */
  datatype Option<T> = None | Some(value: T)

  /** Recurrence kind of an entry: a one-off movement, or one repeating every month or every year. */
  datatype Period = Once | Monthly | Yearly

  datatype MovementType = Expense | Income

  /** A stored cashflow. For a recurring entry `date` is its first occurrence and
      `endDate`, when present, its last; amount and description are carried, never read. */
  datatype CashFlow = CashFlow(
    id: int,
    date: Timestamp,
    endDate: Option<Timestamp>,
    period: Period,
    movType: MovementType,
    categoryId: int,
    amount: real,
    description: string)

  /** Both dates of an entry are well-formed instants. */
  predicate ValidEntry(cf: CashFlow) {
    Valid(cf.date) && (cf.endDate.Some? ==> Valid(cf.endDate.value))
  }
}
