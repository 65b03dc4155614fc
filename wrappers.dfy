/** Option and Result, used for Java's nullable references and for outcomes that can fail. */
module Wrappers {

  /** `None` stands for a Java `null` or a missing JavaScript value. */
  datatype Option<+T> = None | Some(value: T)

  datatype Result<+T, +E> = Success(value: T) | Failure(error: E)
}
