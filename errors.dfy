/** The crate's single error kind (`snafu::Whatever`) and the result/option
    shapes its functions return. Every failure carries only a context message. */
module Errors {

  /** A failure with a human-readable context message, as `whatever!` builds it. */
  datatype Error = Whatever(message: string)

  datatype Result<T> = Ok(value: T) | Err(error: Error)

  datatype Option<T> = None | Some(value: T)
}
