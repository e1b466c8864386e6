/** The library's error type (src/error.rs) and the failure-compatible
    wrappers the rest of the model returns.  Only the variants the core
    produces are kept; each carries the text the source attaches to it. */
module Errors {

  /** `Error::InputError { parameter_name, message }`, `Error::ExifError`
      and `Error::UnknownError` of the library. */
  datatype Error =
    | InputError(parameterName: string, message: string)
    | ExifError(message: string)
    | UnknownError(message: string)

  datatype Option<+T> = None | Some(value: T) {

    /** Returns the wrapped value or `default` (Rust's `Option::unwrap_or`). */
    function UnwrapOr(default: T): T {
      match this
      case Some(v) => v
      case None => default
    }

    /** Rust's `Option::ok_or`. */
    function OkOr(error: Error): Result<T> {
      match this
      case Some(v) => Ok(v)
      case None => Err(error)
    }
  }

  /** `Result<T, Error>`; usable with `:-` like Rust's `?`. */
  datatype Result<+T> = Ok(value: T) | Err(error: Error) {

    predicate IsFailure() {
      Err?
    }

    function PropagateFailure<U>(): Result<U>
      requires Err?
    {
      Err(error)
    }

    function Extract(): T
      requires Ok?
    {
      value
    }
  }
}
