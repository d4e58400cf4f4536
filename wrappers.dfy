/** Outcome types shared by every module of the model. */
module Wrappers {
  datatype Option<T> = None | Some(value: T)

  /**
   * The result of a Go call that returns `(T, error)`.  `Panic` stands for a
   * run-time panic of the Go program (an index out of range, a failed type
   * assertion), which the Go code does not turn into an error value.
   */
  datatype Result<T> = Ok(value: T) | Err(msg: string) | Panic(reason: string)

  /** The result of a Go call that returns only `error`. */
  datatype Status = Success | Failure(msg: string) | Crash(reason: string)
}
