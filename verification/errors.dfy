/** Failures of the multiplication core.  Every failure of the Rust code is a
    panic; the model turns each panic into an error value that the caller sees. */
module Errors {

  datatype Error =
    /** The entry points' explicit panic when A's column count differs from
        B's row count; it carries the four dimensions the message prints. */
    | DimensionMismatch(aRows: nat, aCols: nat, bRows: nat, bCols: nat)
    /** An `assert_eq!` on rows or columns failing inside `Matrix::add` or
        `Matrix::sub`. */
    | ShapeMismatch

  /** The result of an operation that may panic. */
  datatype Result<+T> = Ok(value: T) | Err(error: Error) {
    predicate IsFailure() {
      Err?
    }

    function PropagateFailure<U>(): Result<U>
      requires Err?
    {
      Err(error)
    }

    function Extract(): T
      requires Ok?
    {
      value
    }
  }

  /** The outcome of an in-place operation that may panic. */
  datatype Outcome = Pass | Fail(error: Error)
}
