module Wrappers {
  /** The optional value that stands for Go's nil, absent key or (value, ok) pair. */
  datatype Option<+T> = None | Some(value: T)

  /**
   * How a remote command turns out: done, not done, or done with its reply lost, which the caller takes for an error.
   */
  datatype Reply = Answered | Refused | Lost
}
