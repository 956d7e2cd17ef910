/** Failure-compatible wrappers used throughout the ledger model. */
module Wrappers {

  /** A value that may be absent; `None` stands for a C# `null`. */
  datatype Option<+T> = None | Some(value: T)

  /** The value of an operation that either returns or faults. */
  datatype Result<+R, +E> = Success(value: R) | Failure(error: E)

  /** The outcome of an operation that returns nothing but may fault. */
  datatype Outcome<+E> = Pass | Fail(error: E)
}
