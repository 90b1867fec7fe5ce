/** Optional values and the outcome of an operation that can fail. */
module Wrappers {
  /** `None` stands for a Java `null` reference. */
  datatype Option<+T> = None | Some(value: T)

  /** `Failure` carries the message of the `IOException` the operation throws. */
  datatype Result<+T> = Success(value: T) | Failure(error: string)
}
