/** Failure-carrying values used across the model: an optional value, and the
    success-or-error result that stands for a Python call that either returns
    or raises (the error carries `str(e)` of the raised exception). */
module Outcomes {

  datatype Option<+T> = None | Some(value: T)

  datatype Result<+T> = Ok(value: T) | Err(error: string)
}
