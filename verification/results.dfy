/** Failure-compatible wrappers used across the model: `Option` for the
    tester's "no mismatch / first mismatch" answer, and `Result` for the
    operations of `Tester.py` that raise an exception. */
module Results {

  datatype Option<+T> = None | Some(value: T)

  /** Either a value or the exception `Tester.py` raises.
      Usable with `:-`. */
  datatype Result<+T, +E> = Success(value: T) | Failure(error: E) {

    predicate IsFailure() {
      Failure?
    }

    function PropagateFailure<U>(): Result<U, E>
      requires Failure?
    {
      Failure(error)
    }

    function Extract(): T
      requires Success?
    {
      value
    }
  }
}
