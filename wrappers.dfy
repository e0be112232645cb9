/** Failure-carrying values used where app.py relies on a Python exception or a missing value. */
module Wrappers {

  /** A value that may be missing: an oracle call that raised, or a collection that was never loaded. */
  datatype Option<T> = None | Some(value: T)

  /** The outcome of an operation that returns nothing on success. */
  datatype Outcome<E> = Pass | Fail(error: E)
}
