/** Failure-carrying values shared by the converters. */
module Wrappers {

  /** A value that may be absent: a missing attribute, parameter or library result. */
  datatype Option<+T> = None | Some(value: T)

  /** Result of a conversion step: a value, or the failure message the tool reports. */
  datatype Result<+T> = Ok(value: T) | Fail(message: string)

  /** One byte of an uploaded file's blob. */
  newtype byte = b: int | 0 <= b < 256
}
