/** Option and Result values used across the model in place of `undefined`, `null` and thrown errors. */
module Outcomes {

  datatype Option<+T> = None | Some(value: T)

  /** The value of a call that either returns (`Ok`) or throws with a message (`Err`). */
  datatype Result<+T> = Ok(value: T) | Err(message: string)
}
