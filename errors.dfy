/** The two exceptions the containers throw, as values. */
module Errors {

  /** `std::out_of_range` from a bounds-checked access, and
      `std::invalid_argument` from an operation on operands of different shapes. */
  datatype Error = OutOfRange | InvalidArgument

  /** The result of an operation that either returns a value or throws. */
  datatype Result<T> = Ok(value: T) | Err(error: Error)

  /** The result of an operation that returns nothing or throws. */
  datatype Outcome = Pass | Fail(error: Error)
}
