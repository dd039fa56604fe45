/** Outcomes of the calls the service makes to code outside this model. */
module Wrappers {

  datatype Option<+T> = None | Some(value: T)

  /** A call that returns a value or fails; Go's error value is not inspected anywhere, so it carries nothing. */
  datatype Result<+T> = Ok(value: T) | Err

  /** A call that returns only an error value, nil on success. */
  datatype Outcome = Pass | Fail
}
