/** Small helper datatypes shared by the whole model. */
module Wrappers {

  /** A value that may be absent: Python's `None` as a result. */
  datatype Option<+T> = None | Some(value: T)

  /**
   * How a Python call ends: with a value, with a `KeyError` (the one
   * exception `Transaction.validate` catches), or with any other exception,
   * which aborts the request that made the call.
   */
  datatype Outcome<+T> = Done(value: T) | KeyError | Raised
}
