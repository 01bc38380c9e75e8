/** Option and Result wrappers used across the model in place of JavaScript's
    `undefined`/`null` values and thrown errors. */
module Results {

  /** An optional value: `None` stands for a field that is `undefined` or `null`. */
  datatype Option<+T> = None | Some(value: T) {

    /** The wrapped value, or `default` when there is none (JavaScript's `x ?? default`). */
    function GetOr(default: T): T {
      match this
      case Some(v) => v
      case None => default
    }
  }

  /** The outcome of an operation that may throw or reject. */
  datatype Result<+R, +E> = Ok(value: R) | Err(error: E)
}
