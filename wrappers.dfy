/** Option and Result: the worker's "value or nothing" returns (`None`) and
    its raised exceptions (`ValueError`) as values. */
module Wrappers {

  datatype Option<+T> = None | Some(value: T)

  datatype Result<+T, +E> = Ok(value: T) | Err(error: E)
}
