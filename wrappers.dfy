/** Option and Result: the model's stand-ins for JavaScript's null and for thrown errors. */
module Wrappers {

  datatype Option<+T> = None | Some(value: T)

  /** `Failure(message)` stands for an `Error` thrown with that message. */
  datatype Result<+R> = Success(value: R) | Failure(error: string)
}
