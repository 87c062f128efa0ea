/** Optional values and results shared by the model of the engage rule engine. */
module Outcomes {

  /** A value that may be absent: JavaScript `undefined`/`null` or a missing document. */
  datatype Option<+T> = None | Some(value: T)

  /** The completion of a step that may throw or reject. */
  datatype Result<+T, +E> = Ok(value: T) | Err(error: E)
}
