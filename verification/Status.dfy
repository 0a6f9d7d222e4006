/** The status of an event in the database and on the Fund contract. */
module Status {
  datatype AppStatus = Draft | Funding | Funded | Ticketing | Ongoing | Completed | Cancelled | Failed

  predicate Terminal(s: AppStatus)
  {
    s == Completed || s == Cancelled || s == Failed
  }

  /** The contract creates an event as funding or, without investment, as funded. */
  datatype ChainStatus = OnFunding | OnFunded | OnTicketing | OnCompleted | OnCancelled
}
