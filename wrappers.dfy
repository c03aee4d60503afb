/** Optional values and step outcomes, shared by the whole model. */
module Wrappers {

  datatype Option<+T> = None | Some(value: T)

  /** The outcome of an abstract step that may fail with a message (a thrown Error). */
  datatype Result<+T> = Ok(value: T) | Err(message: string)
}
