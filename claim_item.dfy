/** One line of a claim: hours worked at an hourly rate. */
module ClaimItems {
  import opened Wrappers

  /** A claim line item. The C# `decimal` rate is an exact `real`; the description may be null. */
  datatype ClaimItem = ClaimItem(
    claimItemId: int,
    claimId: int,
    description: Option<string>,
    hoursWorked: int,
    rate: real)

  /** The derived amount of one line: hours times rate. */
  function Total(item: ClaimItem): real
  {
    item.hoursWorked as real * item.rate
  }

  /** 5 hours at a rate of 100 amount to 500. */
  lemma TotalExample(item: ClaimItem)
    requires item.hoursWorked == 5 && item.rate == 100.0
    ensures Total(item) == 500.0
  {
  }

  /** No hours, or a zero rate, amounts to nothing. */
  lemma TotalZero(item: ClaimItem)
    requires item.hoursWorked == 0 || item.rate == 0.0
    ensures Total(item) == 0.0
  {
  }

  /** Non-negative hours at a non-negative rate never amount to a negative total. */
  lemma TotalNonNegative(item: ClaimItem)
    requires item.hoursWorked >= 0 && item.rate >= 0.0
    ensures Total(item) >= 0.0
  {
  }
}
