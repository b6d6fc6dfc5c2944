/** Failure-carrying result types shared by the store's modules. */
module Wrappers {

  /** A value or nothing; `None` stands for the C# `null` a load returns for an absent stream. */
  datatype Option<+T> = None | Some(value: T)

  /** Success without a value, or a failure carrying an error. */
  datatype Outcome<+E> = Pass | Fail(error: E)

  /** A value, or the exception the operation throws. */
  datatype Result<+R, +E> = Success(value: R) | Failure(error: E)
}
