/** Success/failure wrappers shared by the other modules: a Python call
    either returns a value or raises an exception, which the model names. */
module Outcomes {

  datatype Option<+T> = None | Some(value: T)

  datatype Result<+T, +E> = Ok(value: T) | Err(error: E)
}
