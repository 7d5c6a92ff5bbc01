/** Failure-compatible result types shared by every module of the model.

    The Java code reports a shape mismatch by throwing
    `new Exception("Dimension Error")`; a few operations fail instead with the
    runtime exceptions of the Java library (an index outside an array, an array
    of negative size, a missing value).  Each of these becomes a `Failure` value here. */
module Wrappers {

  /** Why an operation failed. */
  datatype Error =
    | DimensionError      // the explicit "Dimension Error" of Matrix and Vektor
    | IndexOutOfBounds    // an array or list index outside its bounds
    | NegativeArraySize   // an array allocated with a negative length
    | NullReference       // a `null` reference dereferenced or unboxed
    | NoSuchElement       // `next()` on an exhausted iterator
    | IllegalArgument     // a sub-list whose start lies after its end

  /** The conventional optional value (Java's `null` is `None`). */
  datatype Option<+T> = None | Some(value: T)

  /** The outcome of an operation that yields a value. */
  datatype Result<+T> = Success(value: T) | Failure(error: Error) {
    predicate IsFailure() { Failure? }
    function PropagateFailure<U>(): Result<U>
      requires Failure?
    {
      Failure(error)
    }
    function Extract(): T
      requires Success?
    {
      value
    }
  }

  /** The outcome of an operation that yields nothing (a Java `void` method that may throw). */
  datatype Outcome = Pass | Fail(error: Error) {
    predicate IsFailure() { Fail? }
    function PropagateFailure(): Outcome
      requires Fail?
    {
      this
    }
  }
}
