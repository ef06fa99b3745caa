/** Optional values and results with an error, as used across the model. */
module Wrappers {

  /** A value that may be missing (Python's `None`, a SQL NULL, a pandas NaN). */
  datatype Option<+T> = None | Some(value: T)

  /** Either a computed value or the error the source raises instead. */
  datatype Result<+R, +E> = Success(value: R) | Failure(error: E)

  /** Python truthiness of an optional string argument: `None` and `""` are both false. */
  predicate Given(o: Option<string>)
  {
    o.Some? && o.value != ""
  }
}
