/** Option and Result values standing for Java's null and thrown exceptions. */
module Wrappers {

  datatype Option<+T> = None | Some(value: T)

  datatype Result<+T, +E> = Ok(value: T) | Err(error: E)

  /** A thrown Java exception: its class name and its message (null as None). */
  datatype Exception = Exception(className: string, message: Option<string>)
}
