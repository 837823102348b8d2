/** Stock Option and Result values used for the error paths of the evaluation scripts. */
module Wrappers {

  datatype Option<T> = None | Some(value: T)

  datatype Result<T, E> = Ok(value: T) | Err(error: E)
}
