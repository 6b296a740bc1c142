/** Option and Result types shared by the whole model. */
module Wrappers {
  datatype Option<+T> = None | Some(value: T)

  /** A value, or the reason it could not be produced (an `Err`, a thrown JavaScript error). */
  datatype Result<+T> = Ok(value: T) | Err(reason: string)

  /** How a call that may panic ends: it completes, or it panics with the source's message. */
  datatype Outcome = Completed | Panicked(message: string)
}
