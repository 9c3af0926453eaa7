/** Failure-carrying results for the operations of the catalogue.

    The Java code signals failure by throwing one of a few exception types
    and signals absence by returning null; the model returns these values
    instead. */
module Wrappers {

  /** A value that may be absent: Java's nullable reference. */
  datatype Option<+T> = None | Some(value: T)

  /** The exceptions the core throws, each with its message text.
      NotFound and Validation are the project's own exception classes;
      IllegalArgument is the one java.util.stream raises for a negative
      limit. */
  datatype Error =
    | NotFound(message: string)
    | Validation(message: string)
    | IllegalArgument(message: string)

  /** The outcome of an operation that returns a value or throws. */
  datatype Result<+T> = Success(value: T) | Failure(error: Error)

  /** The outcome of a void operation that may throw. */
  datatype Outcome = Pass | Fail(error: Error)
}
