/** Failure-carrying results shared by the resolver and the loader. */
module Outcomes {

  /** An optional value. */
  datatype Option<+T> = None | Some(value: T)

  /** Either a value or an error describing why there is none. */
  datatype Result<+R, +E> = Ok(value: R) | Err(error: E)
}
