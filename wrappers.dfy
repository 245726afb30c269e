/** Optional values and results, used for Go's nilable pointers and `(value, error)` pairs. */
module Wrappers {

  /** A value that may be absent: `None` plays the part of Go's `nil`. */
  datatype Option<T> = None | Some(value: T)

  /** The outcome of an operation that yields either a value or an error. */
  datatype Result<T, E> = Success(value: T) | Failure(error: E)
}
