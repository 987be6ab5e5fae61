/** Optional values and error-or-value results, standing in for Java's null and exceptions. */
module Wrappers {

  /** `None` stands for a Java `null` reference. */
  datatype Option<+T> = None | Some(value: T)

  /** `Err` stands for an exception thrown to the caller. */
  datatype Result<+T, +E> = Ok(value: T) | Err(error: E)
}
