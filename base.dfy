/** Small result types shared by every module of the model. */
module Base {

  /** A value that may be absent: JavaScript's `null`/`undefined`. */
  datatype Option<+T> = None | Some(value: T) {
    function GetOr(default: T): T {
      match this
      case Some(v) => v
      case None => default
    }
  }

  /** The outcome of JavaScript code that may throw a `TypeError`, for instance by
      calling `.filter` or `.includes` on a number. */
  datatype Outcome<+T> = Ok(value: T) | TypeError
}
