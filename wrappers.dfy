/** Option and Result values shared by the whole model. */
module Wrappers {

  /** An optional value: `None` stands for JavaScript's `null`/`undefined` or Python's `None`. */
  datatype Option<+T> = None | Some(value: T) {
    function GetOr(default: T): T {
      match this
      case Some(v) => v
      case None => default
    }
  }

  /** The outcome of an operation that can raise. */
  datatype Result<+T, +E> = Ok(value: T) | Err(error: E)
}
