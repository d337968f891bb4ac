/** Failure-carrying wrappers shared by the modules of this model. */
module Common {

  datatype Option<+T> = None | Some(value: T)

  /** The outcome of a call that either returns a value or raises an exception
      whose message is kept. */
  datatype Result<+T> = Ok(value: T) | Err(message: string)
}
