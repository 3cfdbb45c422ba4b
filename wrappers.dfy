/** Option and Result values used across the model: a C pointer that may be
    NULL becomes an Option, an outcome the C code leaves undefined becomes
    the failure side of a Result. */
module Wrappers {

  datatype Option<+T> = None | Some(value: T)

  datatype Result<+R, +E> = Ok(value: R) | Err(error: E)
}
