/** SQL NULL and statement failure, as values. */
module Wrappers {

  /** A nullable column value: `None` is SQL NULL. */
  datatype Option<+T> = None | Some(value: T)

  /** The outcome of a statement that can abort: `Err` carries the engine's message. */
  datatype Result<+T> = Ok(value: T) | Err(message: string)
}
