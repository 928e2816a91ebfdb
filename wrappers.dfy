/** Option and pass/fail outcomes: Go's `(value, ok)` lookups and `error` returns. */
module Wrappers {

  datatype Option<+T> = None | Some(value: T)

  /** `Pass` is a nil `error`; `Fail(e)` is a non-nil one. */
  datatype Outcome<+E> = Pass | Fail(error: E)
}
