/** Shapes shared by the signup and song models. */
module Outcomes {

  /** A JavaScript object field that holds a value or is `undefined`. */
  datatype Option<T> = None | Some(value: T)

  /** A promise that either resolves with a value or rejects with an `Error` carrying a message. */
  datatype Result<T> = Success(value: T) | Failure(message: string)
}
