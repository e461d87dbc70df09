/** Optional values (Java's nullable references and `Optional`) and results
    that either carry a value or the error a Java method would have thrown. */
module Wrappers {

  /** `None` stands for Java's `null` / an empty `Optional`. */
  datatype Option<+T> = None | Some(value: T)

  /** `Err` stands for an exception escaping the modelled method. */
  datatype Result<+T, +E> = Ok(value: T) | Err(error: E)
}
