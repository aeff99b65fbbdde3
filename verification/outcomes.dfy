/** Failure-carrying values shared by the whole model. */
module Outcomes {

  /** A value that may be absent (Python's `None`). */
  datatype Option<+T> = None | Some(value: T)

  /** The result of a step that either produces a value or raises. */
  datatype Result<+T, +E> = Ok(value: T) | Err(error: E)

  /** What one exchange call returned: its payload, or the fact that it raised. */
  datatype Fetch<+T> = Fetched(value: T) | FetchFailed
}
