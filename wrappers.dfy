/** Failure-compatible wrapper types shared by the model. */
module Wrappers {

  /** An optional value: JavaScript's `undefined` or a failed `JSON.parse`
      is `None`. */
  datatype Option<+T> = None | Some(value: T)

  /** A value or an error message. */
  datatype Result<+T> = Success(value: T) | Failure(error: string)
}
