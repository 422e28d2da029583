/** Option and result types shared by the adapters. */
module Wrappers {

  /** A value that may be absent; `None` stands for JavaScript's `undefined`. */
  datatype Option<+T> = None | Some(value: T)

  /**
   Either a produced value or the error that was thrown instead. Unlike the
   value-less `Outcome` (`Pass | Fail`) of Dafny's standard wrappers, this
   carries the value on success.
   */
  datatype Attempt<+T, +E> = Success(value: T) | Failure(error: E)
}
