/** Failure-compatible helper datatypes shared by every module of the model. */
module Wrappers {

  /** A value that may be absent, in place of a Java `null` reference. */
  datatype Option<+T> = None | Some(value: T)

  /** The outcome of an operation that either yields a value or raises an error. */
  datatype Result<+T, +E> = Success(value: T) | Failure(error: E)

  /** The outcome of a validation step: it either passes or raises an error. */
  datatype Validation<+E> = Pass | Fail(error: E) {

    /** Runs `next` only when this step passed: the first failing step wins. */
    function Then(next: Validation<E>): Validation<E>
    {
      if Fail? then this else next
    }
  }
}
