/** How a container call ends, as the caller sees it. */
module Outcomes {

  /** An optional value. For the removal operations, `Some(x)` is a call that
      stored `x` into its `item` out-parameter and returned `true`; `None` is a
      call that returned `false` and left `item` as it was. */
  datatype Option<+T> = None | Some(value: T)

  /** A call either returns normally with a value, or throws the container's
      single error, ShutdownException. */
  datatype Outcome<+R> = Returned(value: R) | ShutdownException
}
