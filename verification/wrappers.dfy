/** Failure-compatible wrappers used for the optional values and the raised
    exceptions of the modelled code. */
module Wrappers {

  /** An optional value: an absent HDF5 field, a missing cache entry. */
  datatype Option<+T> = None | Some(value: T)

  /** Either a value or the exception the code would raise instead. */
  datatype Result<+R, +E> = Success(value: R) | Failure(error: E) {

    predicate IsFailure() {
      Failure?
    }

    function PropagateFailure<U>(): Result<U, E>
      requires Failure?
    {
      Failure(error)
    }

    function Extract(): R
      requires Success?
    {
      value
    }
  }
}
