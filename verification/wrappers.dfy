/** Failure-carrying values used in place of Java's nulls and exceptions. */
module Wrappers {

  /** A Java reference that may be null. */
  datatype Option<+T> = None | Some(value: T)

  /** The value of a call that returns normally, or the exception it throws. */
  datatype Result<+T, +E> = Ok(value: T) | Err(error: E)

  /** The outcome of a call whose only normal result is `this` (a builder step). */
  datatype Outcome<+E> = Pass | Fail(error: E)
}

/** The Java exceptions the modelled code throws, each with the message it carries. */
module Exceptions {

  datatype Error =
    | IllegalState(message: string)
    | NullPointer(message: string)
    | GeneralSecurity(message: string)
    | IndexOutOfBounds(index: int)
}
