/** Option and Result, the nullable-value and error-return shapes used throughout the model. */
module Wrappers {

  /** A Java reference that may be null: `None` stands for null. */
  datatype Option<+T> = None | Some(value: T) {
    function GetOr(default: T): T {
      match this
      case Some(v) => v
      case None => default
    }
  }

  /** The ways a call of the modelled code ends with an exception instead of a value. */
  datatype Fault =
    | NullDereference   // a NullPointerException: a null reference was dereferenced or unboxed
    | DuplicateKey      // the IllegalStateException of Collectors.toMap on a repeated key
    | IndexOutOfBounds  // an IndexOutOfBoundsException from a list lookup
    | IllegalArgument   // an IllegalArgumentException, such as URI.toURL on a relative URI

  datatype Result<+T> = Success(value: T) | Failure(fault: Fault)
}
