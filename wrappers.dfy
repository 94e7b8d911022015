/** The error-carrying results the source returns from fallible operations:
    `Result<T, &'static str>` and `Result<T, ParsingErr>` carry a message, and
    `Result<T, ()>` carries nothing and is an `Option` here. */
module Wrappers {

  datatype Result<+T> = Ok(value: T) | Err(msg: string)

  datatype Option<+T> = None | Some(value: T)
}
