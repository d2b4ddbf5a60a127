/** Option and Result, used for JavaScript's `null`/`undefined` and for rejected promises. */
module Wrappers {

  /** `None` stands for a JavaScript `null` or `undefined`. */
  datatype Option<+T> = None | Some(value: T)

  /** `Failure` stands for a rejected promise or a thrown error. */
  datatype Result<+R, +E> = Success(value: R) | Failure(error: E)
}
