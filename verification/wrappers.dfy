/** Failure-compatible wrappers shared by the reservation model: a Java
    reference that may be null becomes an `Option`, and a call that returns a
    value or throws becomes a `Result`. */
module Wrappers {

  /** A nullable reference: `None` stands for Java's `null`. */
  datatype Option<+T> = None | Some(value: T)

  /** A call that either returns `value` or throws `error`. */
  datatype Result<+R, +E> = Success(value: R) | Failure(error: E)
}
