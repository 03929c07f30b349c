/** Failure-compatible helper datatypes shared by every module of the model:
    `Option` stands for a JavaScript value that may be `undefined`/`null`,
    `Result` for an operation that may throw. */
module Wrappers {

  datatype Option<+T> = None | Some(value: T) {

    /** Returns the wrapped value, or `default` when there is none (the `||` / `??` idiom). */
    function GetOr(default: T): T {
      match this
      case Some(v) => v
      case None => default
    }
  }

  /** `Err` carries the message of the exception the source throws. */
  datatype Result<+T> = Ok(value: T) | Err(error: string)
}
