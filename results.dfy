/** Option and Result values, and the Python exceptions the modelled scripts can raise. */
module Results {

  datatype Option<+T> = None | Some(value: T)

  /** The kind of exception a Python statement raises; the message text is not modelled. */
  datatype Error =
    | AssertionError   // a failed `assert`
    | ValueError       // bad date, duplicate reindex axis, bad unpacking, bad array shape
    | KeyError         // a missing dictionary key
    | IndexError       // indexing an empty sequence

  /** The value a Python call returns, or the exception it raises; usable with `:-`. */
  datatype Result<+T> = Success(value: T) | Failure(error: Error) {
    predicate IsFailure() {
      Failure?
    }

    function PropagateFailure<U>(): Result<U>
      requires Failure?
    {
      Failure(error)
    }

    function Extract(): T
      requires Success?
    {
      value
    }
  }
}
