/**
 * Result shapes shared by every module: Go's `(value, error)` pairs become
 * `Result`, a bare `error` return becomes `Outcome`, and a nil reference or a
 * missing map entry becomes `Option`.
 */
module Wrappers {
  datatype Option<T> = None | Some(value: T)

  datatype Result<T> = Ok(value: T) | Err(msg: string)

  /** A Go `error` return: `nil` is `Pass`, anything else carries its message. */
  datatype Outcome = Pass | Fail(msg: string)
}
