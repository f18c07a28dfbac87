/** Option and Result values: the model's stand-in for Python's `None` and for raised exceptions. */
module Outcomes {

  datatype Option<T> = None | Some(value: T)

  /** `Err` stands for an exception the Python code raises or a failure it reports. */
  datatype Result<T, E> = Ok(value: T) | Err(error: E)
}
