/** Failure-carrying values used throughout the model: Java's `null` becomes `None`,
    a thrown exception becomes `Failure`. */
module Wrappers {

  datatype Option<+T> = None | Some(value: T)

  datatype Result<+R, +E> = Success(value: R) | Failure(error: E) {
    predicate IsFailure() {
      Failure?
    }

    function PropagateFailure<U>(): Result<U, E>
      requires Failure?
    {
      Failure(error)
    }

    function Extract(): R
      requires Success?
    {
      value
    }
  }

  /** The result of an operation that returns nothing (Java `void`) but may throw. */
  datatype Outcome<+E> = Pass | Fail(error: E)

  /** The Java exceptions the modelled code can raise. */
  datatype Error =
    | ClassCast                                        // a `(T) x` cast of a value of another type
    | NullPointer                                      // a dereference of `null`
    | IllegalArgument(supplied: nat, expected: nat)    // IMG-0040: response-file count mismatch
    | FileNotFound(path: string)                       // IMG-0042: response file is not a regular file
    | IoFailure(path: string)                          // a copy or archive read that failed
}
