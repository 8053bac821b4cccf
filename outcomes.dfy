/** Result shapes for the ledger's operations: an add either passes or fails
    with an error kind; a spend either succeeds with a value or fails. */
module Outcomes {

  datatype Outcome<+E> = Pass | Fail(error: E)

  datatype Result<+R, +E> = Success(value: R) | Failure(error: E)
}
