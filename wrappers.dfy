/** Failure-carrying values shared by the modules of this model. */
module Wrappers {

  /** A value that may be missing: the model of a JavaScript `T | null`. */
  datatype Option<+T> = None | Some(value: T)

  /** The outcome of a construction that may abort: in the source an abort
      is a thrown `Error` whose message is carried here. */
  datatype Result<+T> = Ok(value: T) | Err(message: string)
}
