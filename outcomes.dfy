/** Values that stand for Java's null and for the exceptions the loader throws or lets through. */
module Outcomes {

  /** A possibly-null reference: None is Java's null. */
  datatype Option<+T> = None | Some(value: T)

  /** The exceptions that can leave the loader. */
  datatype Failure =
    | NullPointer(reference: string)   // NullPointerException on dereferencing the named null reference
    | IllegalState(message: string)    // IllegalStateException with its message
    | FileNotFound(path: string)       // java.io.FileNotFoundException for a path
    | IoFailure(reason: string)        // any other java.io.IOException

  /** A call that returns a value or throws. */
  datatype Result<+T> = Ok(value: T) | Err(error: Failure)

  /** A void call that returns normally or throws. */
  datatype Outcome = Pass | Fail(error: Failure)
}
