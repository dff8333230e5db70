/** Option and Result wrappers, and the exceptions the repository raises. */
module Outcomes {

  datatype Option<+T> = None | Some(value: T)

  /** The exceptions raised by the core, with the messages the source throws. */
  datatype Error =
    | InvalidArgument(message: string)
    | ErrorException(message: string)

  const NotACriteriaMessage: string :=
    "Failed to build criteria, passed object is not an instance of criteria."

  const PaginationRequiredMessage: string :=
    "PaginationCriteria is required for this operation"

  /** The outcome of a call that either completes or throws. */
  datatype Outcome = Pass | Fail(error: Error)

  /** The result of a call that either returns a value or throws. */
  datatype Result<+T> = Success(value: T) | Failure(error: Error)
}
